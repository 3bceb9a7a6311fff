/** The pipeline board: six stage columns over the deal list, the value of
    each column, and the drag-and-drop state that turns a drop into a stage
    change. */
module PipelineBoard {
  import opened Optional
  import Lists
  import opened Records

  /** The six columns, in the order they are drawn. */
  const Stages: seq<string> := ["Lead", "Qualified", "Proposal", "Negotiation", "Closed Won", "Closed Lost"]

  predicate Distinct(ks: seq<string>) {
    forall i, j :: 0 <= i < j < |ks| ==> ks[i] != ks[j]
  }

  /** Six columns, one per distinct stage name. */
  lemma StagesAreDistinct()
    ensures |Stages| == 6 && Distinct(Stages)
  {
  }

  function StageTest(stage: string): Deal -> bool {
    (d: Deal) => d.stage == stage
  }

  function DealValue(d: Deal): int { d.value }

  /** `getDealsByStage(stage)` */
  function DealsByStage(deals: seq<Deal>, stage: string): (r: seq<Deal>)
    ensures |r| <= |deals|
    ensures forall i :: 0 <= i < |r| ==> r[i].stage == stage
  {
    Lists.FilterMembers(deals, StageTest(stage));
    Lists.Filter(deals, StageTest(stage))
  }

  /** A column holds exactly the deals of its stage, in list order. */
  lemma DealsByStageExact(deals: seq<Deal>, stage: string)
    ensures forall i :: 0 <= i < |DealsByStage(deals, stage)| ==>
              DealsByStage(deals, stage)[i] in deals && DealsByStage(deals, stage)[i].stage == stage
    ensures forall i :: 0 <= i < |deals| && deals[i].stage == stage ==> deals[i] in DealsByStage(deals, stage)
    ensures Lists.IsSubsequence(DealsByStage(deals, stage), deals)
  {
    Lists.FilterMembers(deals, StageTest(stage));
    Lists.FilterIsSubsequence(deals, StageTest(stage));
  }

  /** `calculateStageValue(stage)`: the sum of the column's deal values; an
      empty column is worth 0. */
  function StageValue(deals: seq<Deal>, stage: string): (r: int)
    ensures DealsByStage(deals, stage) == [] ==> r == 0
  {
    Lists.Sum(DealsByStage(deals, stage), DealValue)
  }

  /** A column's value is the value of the deals of its stage, summed over
      the whole list. */
  lemma StageValueOverAllDeals(deals: seq<Deal>, stage: string)
    ensures StageValue(deals, stage) == Lists.Sum(deals, Lists.Masked(StageTest(stage), DealValue))
  {
    Lists.SumFilter(deals, StageTest(stage), DealValue);
  }

  /** The sum over the columns ks of a per-deal quantity. */
  function StagesTotal(deals: seq<Deal>, ks: seq<string>, val: Deal -> int): int
    decreases |ks|
  {
    if ks == [] then 0 else Lists.Sum(DealsByStage(deals, ks[0]), val) + StagesTotal(deals, ks[1..], val)
  }

  function InStages(ks: seq<string>): Deal -> bool {
    (d: Deal) => d.stage in ks
  }

  /** One column's sum gains the first deal's value exactly when that deal
      has the column's stage. */
  lemma ColumnSumStep(deals: seq<Deal>, stage: string, val: Deal -> int)
    requires deals != []
    ensures Lists.Sum(DealsByStage(deals, stage), val)
         == (if deals[0].stage == stage then val(deals[0]) else 0) + Lists.Sum(DealsByStage(deals[1..], stage), val)
  {
    if deals[0].stage == stage {
      var rest := DealsByStage(deals[1..], stage);
      assert DealsByStage(deals, stage) == [deals[0]] + rest;
      assert ([deals[0]] + rest)[1..] == rest;
    }
  }

  /** Over distinct columns, the first deal is counted in at most one
      column: the one of its stage, if listed. */
  lemma {:induction false} StagesTotalStep(deals: seq<Deal>, ks: seq<string>, val: Deal -> int)
    requires deals != [] && Distinct(ks)
    ensures StagesTotal(deals, ks, val)
         == (if deals[0].stage in ks then val(deals[0]) else 0) + StagesTotal(deals[1..], ks, val)
    decreases |ks|
  {
    if ks != [] {
      ColumnSumStep(deals, ks[0], val);
      assert Distinct(ks[1..]) by {
        forall i, j | 0 <= i < j < |ks[1..]| ensures ks[1..][i] != ks[1..][j] {
          assert ks[1..][i] == ks[i + 1] && ks[1..][j] == ks[j + 1];
        }
      }
      StagesTotalStep(deals, ks[1..], val);
      if deals[0].stage == ks[0] {
        forall i | 0 <= i < |ks[1..]| ensures ks[1..][i] != deals[0].stage {
          assert ks[1..][i] == ks[i + 1];
        }
      }
      assert deals[0].stage in ks <==> deals[0].stage == ks[0] || deals[0].stage in ks[1..];
    }
  }

  lemma {:induction false} StagesTotalOfNoDeals(ks: seq<string>, val: Deal -> int)
    ensures StagesTotal([], ks, val) == 0
    decreases |ks|
  {
    if ks != [] {
      StagesTotalOfNoDeals(ks[1..], val);
    }
  }

  /** Summing a quantity column by column over distinct stages sums it over
      the deals whose stage is one of them: a deal of an unlisted stage is
      in no column and none is in two. */
  lemma {:induction false} StagesTotalIsListedTotal(deals: seq<Deal>, ks: seq<string>, val: Deal -> int)
    requires Distinct(ks)
    ensures StagesTotal(deals, ks, val) == Lists.Sum(Lists.Filter(deals, InStages(ks)), val)
  {
    if deals == [] {
      StagesTotalOfNoDeals(ks, val);
    } else {
      StagesTotalStep(deals, ks, val);
      StagesTotalIsListedTotal(deals[1..], ks, val);
      var rest := Lists.Filter(deals[1..], InStages(ks));
      if deals[0].stage in ks {
        assert Lists.Filter(deals, InStages(ks)) == [deals[0]] + rest;
        assert ([deals[0]] + rest)[1..] == rest;
      }
    }
  }

  /** The number of cards the columns ks show together. */
  function ColumnCountTotal(deals: seq<Deal>, ks: seq<string>): int
    decreases |ks|
  {
    if ks == [] then 0 else |DealsByStage(deals, ks[0])| + ColumnCountTotal(deals, ks[1..])
  }

  lemma {:induction false} ColumnCountTotalIsStagesTotal(deals: seq<Deal>, ks: seq<string>)
    ensures ColumnCountTotal(deals, ks) == StagesTotal(deals, ks, Lists.One())
    decreases |ks|
  {
    if ks != [] {
      Lists.SumOfOnes(DealsByStage(deals, ks[0]));
      ColumnCountTotalIsStagesTotal(deals, ks[1..]);
    }
  }

  /** The six columns show at most every deal once; they show every deal
      exactly when every deal's stage is one of the six. */
  lemma ColumnCountsCoverDeals(deals: seq<Deal>)
    ensures ColumnCountTotal(deals, Stages) <= |deals|
    ensures (forall i :: 0 <= i < |deals| ==> deals[i].stage in Stages) ==> ColumnCountTotal(deals, Stages) == |deals|
  {
    StagesAreDistinct();
    ColumnCountTotalIsStagesTotal(deals, Stages);
    StagesTotalIsListedTotal(deals, Stages, Lists.One());
    Lists.SumOfOnes(Lists.Filter(deals, InStages(Stages)));
    if forall i :: 0 <= i < |deals| ==> deals[i].stage in Stages {
      forall x | x in deals ensures InStages(Stages)(x) {
      }
      Lists.FilterAll(deals, InStages(Stages));
    }
  }

  /** When every deal's stage is one of the six, the column values add up to
      the value of the whole list. */
  lemma ColumnValuesAddUp(deals: seq<Deal>)
    requires forall i :: 0 <= i < |deals| ==> deals[i].stage in Stages
    ensures StagesTotal(deals, Stages, DealValue) == Lists.Sum(deals, DealValue)
  {
    StagesAreDistinct();
    ListedTotalIsWholeTotal(deals, Stages, DealValue);
  }

  lemma ListedTotalIsWholeTotal(deals: seq<Deal>, ks: seq<string>, val: Deal -> int)
    requires Distinct(ks)
    requires forall i :: 0 <= i < |deals| ==> deals[i].stage in ks
    ensures StagesTotal(deals, ks, val) == Lists.Sum(deals, val)
  {
    StagesTotalIsListedTotal(deals, ks, val);
    forall x | x in deals ensures InStages(ks)(x) {
      var i :| 0 <= i < |deals| && deals[i] == x;
    }
    Lists.FilterAll(deals, InStages(ks));
  }

  /** `getContactName`: the name of the first contact with the deal's contact
      id, "Unknown" when there is none. */
  function ContactName(contacts: seq<Contact>, contactId: Option<int>): (name: string)
    ensures FindContact(contacts, contactId).Some? ==> name == FindContact(contacts, contactId).value.name
    ensures (forall i :: 0 <= i < |contacts| ==> Some(contacts[i].id) != contactId) ==> name == "Unknown"
  {
    match FindContact(contacts, contactId)
    case Some(contact) => contact.name
    case None => "Unknown"
  }

  /** The `onStageChange(id, stage)` call a drop makes, if any: only a dragged
      deal dropped on a column of another stage moves. */
  function StageChangeOnDrop(draggedDeal: Option<Deal>, stage: string): (call: Option<(int, string)>)
    ensures call.Some? <==> draggedDeal.Some? && draggedDeal.value.stage != stage
    ensures call.Some? ==> call.value.0 == draggedDeal.value.id && call.value.1 == stage
  {
    if draggedDeal.Some? && draggedDeal.value.stage != stage then Some((draggedDeal.value.id, stage)) else None
  }

  /** The board's `draggedDeal` state. */
  class Board {
    var draggedDeal: Option<Deal>

    constructor ()
      ensures draggedDeal == None
    {
      draggedDeal := None;
    }

    /** `handleDragStart` */
    method DragStart(deal: Deal)
      modifies this
      ensures draggedDeal == Some(deal)
    {
      draggedDeal := Some(deal);
    }

    /** `handleDrop`: returns the stage change it asks for, and always ends
        the drag. */
    method Drop(stage: string) returns (call: Option<(int, string)>)
      modifies this
      ensures call == StageChangeOnDrop(old(draggedDeal), stage)
      ensures draggedDeal == None
    {
      if draggedDeal.Some? && draggedDeal.value.stage != stage {
        call := Some((draggedDeal.value.id, stage));
      } else {
        call := None;
      }
      draggedDeal := None;
    }
  }
}
