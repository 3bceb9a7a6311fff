/** The Pipeline page: the open deals it lists, the deal modal, and the list
    updates that follow a stage change or a saved deal, together with the
    activity each one logs. */
module Pipeline {
  import opened Optional
  import Lists
  import opened Records
  import PipelineBoard

  function OpenTest(): Deal -> bool {
    (d: Deal) => d.status == "Open"
  }

  /** `dealsData.filter(d => d.status === "Open")`: the deals the page
      keeps after a load. */
  function OpenDeals(deals: seq<Deal>): (r: seq<Deal>)
    ensures |r| <= |deals|
  {
    Lists.Filter(deals, OpenTest())
  }

  /** The loaded list holds exactly the open deals, in fetch order. */
  lemma OpenDealsExact(deals: seq<Deal>)
    ensures forall i :: 0 <= i < |OpenDeals(deals)| ==> OpenDeals(deals)[i] in deals && OpenDeals(deals)[i].status == "Open"
    ensures forall i :: 0 <= i < |deals| && deals[i].status == "Open" ==> deals[i] in OpenDeals(deals)
    ensures Lists.IsSubsequence(OpenDeals(deals), deals)
  {
    Lists.FilterMembers(deals, OpenTest());
    Lists.FilterIsSubsequence(deals, OpenTest());
  }

  /** `totalValue` */
  function TotalValue(deals: seq<Deal>): (r: int)
    ensures deals == [] ==> r == 0
    ensures (forall d :: d in deals ==> d.value >= 0) ==> r >= 0
  {
    if forall d :: d in deals ==> d.value >= 0 then
      Lists.SumNonNegative(deals, PipelineBoard.DealValue);
      Lists.Sum(deals, PipelineBoard.DealValue)
    else
      Lists.Sum(deals, PipelineBoard.DealValue)
  }

  /** The total is what the board's columns show together when every deal
      is in one of the six stages. */
  lemma TotalValueIsBoardValue(deals: seq<Deal>)
    requires forall i :: 0 <= i < |deals| ==> deals[i].stage in PipelineBoard.Stages
    ensures TotalValue(deals) == PipelineBoard.StagesTotal(deals, PipelineBoard.Stages, PipelineBoard.DealValue)
  {
    PipelineBoard.ColumnValuesAddUp(deals);
  }

  /** A created deal appended to the list adds its value to the total. */
  lemma TotalValueAfterCreate(deals: seq<Deal>, created: Deal)
    ensures TotalValue(deals + [created]) == TotalValue(deals) + created.value
  {
    Lists.SumAppend(deals, [created], PipelineBoard.DealValue);
  }

  /** `avgDealSize` as an exact quotient: 0 for an empty list, otherwise the
      total over the number of deals. */
  datatype Average = Zero | Quotient(total: int, count: nat)

  function AvgDealSize(deals: seq<Deal>): (r: Average)
    ensures deals == [] <==> r == Zero
    ensures r.Quotient? ==> r.total == TotalValue(deals) && r.count == |deals| > 0
  {
    if |deals| > 0 then Quotient(TotalValue(deals), |deals|) else Zero
  }

  /** The activity the page asks the activity service to create. */
  datatype ActivityDraft = ActivityDraft(contactId: Option<int>, dealId: int, activityType: string, description: string)

  class Page {
    var deals: seq<Deal>
    var contacts: seq<Contact>
    var isModalOpen: bool
    var selectedDeal: Option<Deal>

    constructor ()
      ensures deals == [] && contacts == [] && !isModalOpen && selectedDeal == None
    {
      deals := [];
      contacts := [];
      isModalOpen := false;
      selectedDeal := None;
    }

    /** `loadPipelineData` after both services answered: only open deals. */
    method Loaded(dealsData: seq<Deal>, contactsData: seq<Contact>)
      modifies this`deals, this`contacts
      ensures deals == OpenDeals(dealsData) && contacts == contactsData
    {
      deals := Lists.Filter(dealsData, OpenTest());
      contacts := contactsData;
    }

    /** `handleAddDeal`: the modal opens on a new deal. */
    method AddDeal()
      modifies this`selectedDeal, this`isModalOpen
      ensures selectedDeal == None && isModalOpen
    {
      selectedDeal := None;
      isModalOpen := true;
    }

    /** `handleDealClick`: the modal opens on the clicked deal. */
    method DealClick(deal: Deal)
      modifies this`selectedDeal, this`isModalOpen
      ensures selectedDeal == Some(deal) && isModalOpen
    {
      selectedDeal := Some(deal);
      isModalOpen := true;
    }

    /** `handleStageChange` once `updateStage` has settled: on success the
        returned deal replaces every deal with its id and a "deal_updated"
        activity is logged; on failure nothing changes, as nothing was
        changed in advance. */
    method StageChanged(newStage: string, outcome: Result<Deal>) returns (logged: Option<ActivityDraft>)
      modifies this`deals
      ensures outcome.Failed? ==> deals == old(deals) && logged == None
      ensures outcome.Ok? ==> deals == Lists.ReplaceById(old(deals), DealId, outcome.value)
      ensures outcome.Ok? ==> logged == Some(ActivityDraft(outcome.value.contactId, outcome.value.id, "deal_updated",
                                                           "Deal moved to " + newStage + " stage"))
    {
      match outcome
      case Failed(_) =>
        logged := None;
      case Ok(updated) =>
        deals := Lists.ReplaceById(deals, DealId, updated);
        logged := Some(ActivityDraft(updated.contactId, updated.id, "deal_updated", "Deal moved to " + newStage + " stage"));
    }

    /** `handleSubmit` once the save has settled: an edit replaces by id, a
        create appends and logs a "deal_created" activity. The modal closes
        and the selection clears only when every call succeeded: a failed
        save changes nothing, and a create whose activity log then fails
        keeps the appended deal but leaves the modal open on the selection.
        logSucceeded is the outcome of that log call. */
    method Submitted(outcome: Result<Deal>, logSucceeded: bool) returns (logged: Option<ActivityDraft>)
      modifies this`deals, this`isModalOpen, this`selectedDeal
      ensures outcome.Failed? ==>
                deals == old(deals) && isModalOpen == old(isModalOpen) && selectedDeal == old(selectedDeal) && logged == None
      ensures outcome.Ok? && old(selectedDeal).Some? ==>
                deals == Lists.ReplaceById(old(deals), DealId, outcome.value) && logged == None
      ensures outcome.Ok? && old(selectedDeal).None? ==>
                deals == old(deals) + [outcome.value] &&
                logged == Some(ActivityDraft(outcome.value.contactId, outcome.value.id, "deal_created",
                                             "New deal created: " + outcome.value.title))
      ensures outcome.Ok? && (old(selectedDeal).Some? || logSucceeded) ==> !isModalOpen && selectedDeal == None
      ensures outcome.Ok? && old(selectedDeal).None? && !logSucceeded ==>
                isModalOpen == old(isModalOpen) && selectedDeal == old(selectedDeal)
    {
      match outcome
      case Failed(_) =>
        logged := None;
      case Ok(saved) =>
        if selectedDeal.Some? {
          deals := Lists.ReplaceById(deals, DealId, saved);
          logged := None;
        } else {
          deals := deals + [saved];
          logged := Some(ActivityDraft(saved.contactId, saved.id, "deal_created", "New deal created: " + saved.title));
        }
        if selectedDeal.Some? || logSucceeded {
          isModalOpen := false;
          selectedDeal := None;
        }
    }
  }
}
