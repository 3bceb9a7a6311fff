/** The filter panel shown above a list page: a ten-key filter map, the saved
    filter views of one record type mirrored to the browser's key-value store,
    the view that was applied last ("active") and the view being renamed
    ("editing"). */
module FilterPanel {
  import opened Optional
  import Text
  import Lists

  datatype FilterKey =
    | Status | Company | DealValueMin | DealValueMax | Stage
    | Industry | City | State | DateFrom | DateTo

  /** The order in which the panel's state object declares its keys, which is
      the order `Object.values` lists them in. */
  const KeyOrder: seq<FilterKey> :=
    [Status, Company, DealValueMin, DealValueMax, Stage, Industry, City, State, DateFrom, DateTo]

  type Filters = map<FilterKey, string>

  lemma KeyOrderListsEveryKey()
    ensures forall k: FilterKey :: k in KeyOrder
  {
    forall k: FilterKey ensures k in KeyOrder {
      match k
      case Status => assert KeyOrder[0] == k;
      case Company => assert KeyOrder[1] == k;
      case DealValueMin => assert KeyOrder[2] == k;
      case DealValueMax => assert KeyOrder[3] == k;
      case Stage => assert KeyOrder[4] == k;
      case Industry => assert KeyOrder[5] == k;
      case City => assert KeyOrder[6] == k;
      case State => assert KeyOrder[7] == k;
      case DateFrom => assert KeyOrder[8] == k;
      case DateTo => assert KeyOrder[9] == k;
    }
  }

  /** The state the panel starts from and returns to on "Clear": every key "". */
  function EmptyFilters(): (f: Filters)
    ensures forall k :: k in f && f[k] == ""
  {
    KeyOrderListsEveryKey();
    map k | k in KeyOrder :: ""
  }

  /** A filter value counts when it is truthy and not "" (both say non-empty
      for the strings the inputs produce). */
  predicate IsNonEmpty(v: string) {
    v != ""
  }

  /** `hasActiveFilters`: some filter value is non-empty. */
  predicate HasActiveFilters(f: Filters)
    ensures HasActiveFilters(f) ==> f.Keys != {}
    ensures (forall k :: k in f ==> f[k] == "") ==> !HasActiveFilters(f)
  {
    exists k :: k in f && IsNonEmpty(f[k])
  }

  /** After "Clear" nothing is active. */
  lemma ClearedHasNoActiveFilters()
    ensures !HasActiveFilters(EmptyFilters())
  {
  }

  /** The map handed to `onFiltersChange`: exactly the keys whose value is
      non-empty, with their values. */
  function ActiveFilters(f: Filters): (r: Filters)
    ensures forall k :: k in r <==> k in f && IsNonEmpty(f[k])
    ensures forall k :: k in r ==> r[k] == f[k]
  {
    map k | k in f && IsNonEmpty(f[k]) :: f[k]
  }

  lemma ActiveFiltersNonEmptyIffHasActive(f: Filters)
    ensures HasActiveFilters(f) <==> ActiveFilters(f) != map[]
  {
    if HasActiveFilters(f) {
      var k :| k in f && IsNonEmpty(f[k]);
      assert k in ActiveFilters(f);
    }
  }

  /** `Object.values(filters)`, in declaration order. */
  function ValuesIn(f: Filters, keys: seq<FilterKey>): seq<string> {
    if keys == [] then []
    else (if keys[0] in f then [f[keys[0]]] else []) + ValuesIn(f, keys[1..])
  }

  /** The number on the panel's badge. */
  function BadgeCount(f: Filters): nat {
    |Lists.Filter(ValuesIn(f, KeyOrder), IsNonEmpty)|
  }

  /** The badge counts exactly the keys that `onFiltersChange` receives. */
  lemma BadgeCountIsActiveCount(f: Filters)
    ensures BadgeCount(f) == |ActiveFilters(f)|
  {
    var keys := set k | k in KeyOrder && k in f && IsNonEmpty(f[k]);
    CountNonEmptyValues(f, KeyOrder);
    KeyOrderListsEveryKey();
    assert ActiveFilters(f).Keys == keys;
  }

  lemma {:induction false} CountNonEmptyValues(f: Filters, ks: seq<FilterKey>)
    requires forall i, j :: 0 <= i < j < |ks| ==> ks[i] != ks[j]
    ensures |Lists.Filter(ValuesIn(f, ks), IsNonEmpty)| == |set k | k in ks && k in f && IsNonEmpty(f[k])|
  {
    if ks != [] {
      var h, rest := ks[0], ks[1..];
      var head := if h in f then [f[h]] else [];
      CountNonEmptyValues(f, rest);
      Lists.FilterAppend(head, ValuesIn(f, rest), IsNonEmpty);
      var s := set k | k in rest && k in f && IsNonEmpty(f[k]);
      assert h !in rest by {
        forall j | 0 <= j < |rest| ensures rest[j] != h {
          assert ks[j + 1] == rest[j];
        }
      }
      if h in f && IsNonEmpty(f[h]) {
        assert (set k | k in ks && k in f && IsNonEmpty(f[k])) == {h} + s;
      } else {
        assert (set k | k in ks && k in f && IsNonEmpty(f[k])) == s;
      }
    }
  }

  datatype SavedView = SavedView(id: int, name: string, filters: Filters, createdAt: string)

  function ViewId(v: SavedView): int { v.id }

  /** What the key-value store holds under a key: the JSON text of a list of
      views as written by the panel, or some other text, which JSON.parse
      rejects. */
  datatype Stored = Views(views: seq<SavedView>) | Text(raw: string)

  /** `localStorage`, shared by every panel on the page. */
  class Storage {
    var items: map<string, Stored>

    constructor (items: map<string, Stored>)
      ensures this.items == items
    {
      this.items := items;
    }
  }

  function StorageKey(viewType: string): string {
    viewType + "_saved_views"
  }

  /** The load effect: a stored list replaces the current one; a missing key,
      an empty text and a text JSON.parse rejects leave the list as it was. */
  function LoadViews(items: map<string, Stored>, key: string, current: seq<SavedView>): (r: seq<SavedView>)
    ensures key !in items ==> r == current
    ensures key in items && items[key].Text? ==> r == current
    ensures key in items && items[key].Views? ==> r == items[key].views
  {
    if key in items && items[key].Views? then items[key].views else current
  }

  /** The same view is listed when its id is listed. */
  ghost predicate Listed(views: seq<SavedView>, id: int) {
    exists i :: 0 <= i < |views| && views[i].id == id
  }

  class Panel {
    const viewType: string
    const store: Storage
    var filters: Filters
    var savedViews: seq<SavedView>
    var activeView: Option<int>
    var isViewModalOpen: bool
    var newViewName: string
    var editingView: Option<SavedView>

    /** The highlighted view is always one of the listed views. */
    ghost predicate Valid()
      reads this
    {
      activeView.Some? ==> Listed(savedViews, activeView.value)
    }

    /** Mounting the panel: the ten keys at "" overlaid with the initial
        filters, no views, then the load effect for this record type. */
    constructor (viewType: string, store: Storage, initialFilters: Filters)
      ensures Valid()
      ensures this.viewType == viewType && this.store == store
      ensures filters == EmptyFilters() + initialFilters
      ensures savedViews == LoadViews(store.items, StorageKey(viewType), [])
      ensures activeView.None? && editingView.None? && newViewName == "" && !isViewModalOpen
    {
      this.viewType := viewType;
      this.store := store;
      filters := EmptyFilters() + initialFilters;
      activeView := None;
      isViewModalOpen := false;
      newViewName := "";
      editingView := None;
      savedViews := LoadViews(store.items, StorageKey(viewType), []);
    }

    /** `handleFilterChange`: only the named key changes, and the active view
        is cleared. */
    method ChangeFilter(key: FilterKey, value: string)
      requires Valid()
      modifies this
      ensures Valid()
      ensures filters == old(filters)[key := value]
      ensures forall k :: k != key && k in old(filters) ==> k in filters && filters[k] == old(filters)[k]
      ensures activeView.None?
      ensures savedViews == old(savedViews) && editingView == old(editingView)
      ensures newViewName == old(newViewName) && isViewModalOpen == old(isViewModalOpen)
    {
      filters := filters[key := value];
      activeView := None;
    }

    /** `clearFilters` */
    method ClearFilters()
      requires Valid()
      modifies this
      ensures Valid()
      ensures filters == EmptyFilters() && !HasActiveFilters(filters)
      ensures activeView.None?
      ensures savedViews == old(savedViews) && editingView == old(editingView)
      ensures newViewName == old(newViewName) && isViewModalOpen == old(isViewModalOpen)
    {
      filters := EmptyFilters();
      activeView := None;
      ClearedHasNoActiveFilters();
    }

    /** Typing in the view-name input. */
    method SetNewViewName(name: string)
      requires Valid()
      modifies this`newViewName
      ensures Valid() && newViewName == name
    {
      newViewName := name;
    }

    /** The "Save View" button, disabled while no filter is active. */
    method OpenSaveModal()
      requires Valid()
      modifies this`isViewModalOpen
      ensures Valid()
      ensures isViewModalOpen == (old(isViewModalOpen) || HasActiveFilters(filters))
    {
      if HasActiveFilters(filters) {
        isViewModalOpen := true;
      }
    }

    /** `handleSaveView`, reached from the modal's button or from Enter in the
        name input. `now` is `Date.now()` and `nowIso` the ISO text of the same
        instant. A name that trims to nothing is refused and nothing changes;
        otherwise the current filters are saved under the untrimmed name,
        either as a new view at the end or over every view with the edited
        view's id, keeping that id and its creation time. */
    method SaveView(now: int, nowIso: string) returns (saved: bool)
      requires Valid()
      modifies this, store
      ensures Valid()
      ensures saved <==> Text.Trim(old(newViewName)) != ""
      ensures !saved ==> (savedViews == old(savedViews) && store.items == old(store.items)
                          && newViewName == old(newViewName) && editingView == old(editingView)
                          && isViewModalOpen == old(isViewModalOpen))
      ensures saved ==> savedViews == SavedList(old(savedViews), old(editingView),
                                                SavedView(now, old(newViewName), old(filters), nowIso))
      ensures saved ==> store.items == old(store.items)[StorageKey(viewType) := Views(savedViews)]
      ensures saved ==> newViewName == "" && editingView.None? && !isViewModalOpen
      ensures filters == old(filters) && activeView == old(activeView)
    {
      if Text.Trim(newViewName) == "" {
        return false;
      }
      var updated := SavedList(savedViews, editingView, SavedView(now, newViewName, filters, nowIso));
      SavedListKeepsIds(savedViews, editingView, SavedView(now, newViewName, filters, nowIso), activeView);
      savedViews := updated;
      store.items := store.items[StorageKey(viewType) := Views(updated)];
      newViewName := "";
      editingView := None;
      isViewModalOpen := false;
      return true;
    }

    /** `loadView`, reached by clicking a listed view: its filters replace the
        current ones and it becomes the active view. */
    method ApplyView(view: SavedView)
      requires Valid() && view in savedViews
      modifies this
      ensures Valid()
      ensures filters == view.filters && activeView == Some(view.id)
      ensures savedViews == old(savedViews) && editingView == old(editingView)
      ensures newViewName == old(newViewName) && isViewModalOpen == old(isViewModalOpen)
    {
      filters := view.filters;
      activeView := Some(view.id);
    }

    /** `deleteView`: every view with that id goes, the rest stay in order, the
        list is written back, and the active view is cleared only if it was
        the deleted one. */
    method DeleteView(id: int)
      requires Valid()
      modifies this, store
      ensures Valid()
      ensures savedViews == Lists.RemoveById(old(savedViews), ViewId, id)
      ensures store.items == old(store.items)[StorageKey(viewType) := Views(savedViews)]
      ensures activeView == if old(activeView) == Some(id) then None else old(activeView)
      ensures filters == old(filters) && editingView == old(editingView)
      ensures newViewName == old(newViewName) && isViewModalOpen == old(isViewModalOpen)
    {
      var updated := Lists.RemoveById(savedViews, ViewId, id);
      if activeView.Some? && activeView.value != id {
        var i :| 0 <= i < |savedViews| && savedViews[i].id == activeView.value;
        assert savedViews[i] in updated;
        var j :| 0 <= j < |updated| && updated[j] == savedViews[i];
      }
      savedViews := updated;
      store.items := store.items[StorageKey(viewType) := Views(updated)];
      if activeView == Some(id) {
        activeView := None;
      }
    }

    /** `editView`: the modal opens on that view with its name filled in. */
    method EditView(view: SavedView)
      requires Valid()
      modifies this
      ensures Valid()
      ensures editingView == Some(view) && newViewName == view.name && isViewModalOpen
      ensures filters == old(filters) && savedViews == old(savedViews) && activeView == old(activeView)
    {
      editingView := Some(view);
      newViewName := view.name;
      isViewModalOpen := true;
    }

    /** Closing or cancelling the modal. */
    method CloseModal()
      requires Valid()
      modifies this
      ensures Valid()
      ensures !isViewModalOpen && newViewName == "" && editingView.None?
      ensures filters == old(filters) && savedViews == old(savedViews) && activeView == old(activeView)
    {
      isViewModalOpen := false;
      newViewName := "";
      editingView := None;
    }
  }

  /** The list `handleSaveView` writes: without a view being edited the new
      view is appended; while one is edited, every view with its id is
      replaced by the new view carrying the edited view's id and creation
      time. */
  function SavedList(views: seq<SavedView>, editing: Option<SavedView>, newView: SavedView): (r: seq<SavedView>)
    ensures editing.None? ==> r == views + [newView]
    ensures editing.Some? ==> |r| == |views| && forall i :: 0 <= i < |r| ==>
              r[i] == if views[i].id == editing.value.id
                      then newView.(id := editing.value.id, createdAt := editing.value.createdAt)
                      else views[i]
  {
    match editing
    case None => views + [newView]
    case Some(e) => Lists.ReplaceById(views, ViewId, newView.(id := e.id, createdAt := e.createdAt))
  }

  /** Saving keeps every listed id listed, so the active view stays listed. */
  lemma SavedListKeepsIds(views: seq<SavedView>, editing: Option<SavedView>, newView: SavedView, active: Option<int>)
    requires active.Some? ==> Listed(views, active.value)
    ensures active.Some? ==> Listed(SavedList(views, editing, newView), active.value)
  {
    if active.Some? {
      var i :| 0 <= i < |views| && views[i].id == active.value;
      assert SavedList(views, editing, newView)[i].id == active.value;
    }
  }

  /** Saving a new view adds exactly one view and lists its id. */
  lemma SaveNewViewListsIt(views: seq<SavedView>, newView: SavedView)
    ensures |SavedList(views, None, newView)| == |views| + 1
    ensures Listed(SavedList(views, None, newView), newView.id)
  {
    assert SavedList(views, None, newView)[|views|] == newView;
  }

  /** Saving over an id that no listed view has leaves the list as it was. */
  lemma SaveOverUnknownIdKeepsList(views: seq<SavedView>, editing: SavedView, newView: SavedView)
    requires !Listed(views, editing.id)
    ensures SavedList(views, Some(editing), newView) == views
  {
  }
}
