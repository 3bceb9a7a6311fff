/** The Dashboard page: the figures it derives from the fetched contacts,
    deals and activities. */
module Dashboard {
  import Lists
  import opened Records
  import PipelineBoard
  import Pipeline

  /** `activitiesData.slice(0, 6)`: the first six activities, or all of them
      when there are fewer. */
  function RecentActivities(activities: seq<Activity>): (r: seq<Activity>)
    ensures |r| == if |activities| < 6 then |activities| else 6
    ensures r == activities[..|r|]
  {
    if |activities| <= 6 then activities else activities[..6]
  }

  /** `totalPipelineValue`: the value of the open deals. */
  function TotalPipelineValue(deals: seq<Deal>): (r: int)
    ensures (forall d :: d in deals ==> d.status != "Open") ==> r == 0
  {
    if forall d :: d in deals ==> d.status != "Open" then
      Lists.FilterNone(deals, Pipeline.OpenTest());
      Pipeline.TotalValue(Lists.Filter(deals, Pipeline.OpenTest()))
    else
      Pipeline.TotalValue(Lists.Filter(deals, Pipeline.OpenTest()))
  }

  /** The pipeline value counts each open deal's value and nothing for any
      other deal; with non-negative values it is at most the value of all
      deals. */
  lemma TotalPipelineValueCountsOpenDeals(deals: seq<Deal>)
    ensures TotalPipelineValue(deals) == Lists.Sum(deals, Lists.Masked(Pipeline.OpenTest(), PipelineBoard.DealValue))
    ensures (forall i :: 0 <= i < |deals| ==> deals[i].value >= 0) ==> 0 <= TotalPipelineValue(deals) <= Pipeline.TotalValue(deals)
  {
    Lists.SumFilter(deals, Pipeline.OpenTest(), PipelineBoard.DealValue);
    if forall i :: 0 <= i < |deals| ==> deals[i].value >= 0 {
      MaskedSumBounds(deals, Pipeline.OpenTest());
    }
  }

  lemma {:induction false} MaskedSumBounds(deals: seq<Deal>, p: Deal -> bool)
    requires forall i :: 0 <= i < |deals| ==> deals[i].value >= 0
    ensures 0 <= Lists.Sum(deals, Lists.Masked(p, PipelineBoard.DealValue)) <= Lists.Sum(deals, PipelineBoard.DealValue)
  {
    if deals != [] {
      MaskedSumBounds(deals[1..], p);
    }
  }

  /** `wonDeals`: deals in stage "Closed Won", whatever their status. */
  function WonDeals(deals: seq<Deal>): (r: int)
    ensures 0 <= r <= |deals|
  {
    |Lists.Filter(deals, PipelineBoard.StageTest("Closed Won"))|
  }

  /** `openDeals`: deals whose status is "Open". */
  function OpenDealCount(deals: seq<Deal>): (r: int)
    ensures 0 <= r <= |deals|
  {
    |Lists.Filter(deals, Pipeline.OpenTest())|
  }

  function ActiveTest(): Contact -> bool {
    (c: Contact) => c.status == "Active"
  }

  /** `activeContacts`: contacts whose status is "Active". */
  function ActiveContacts(contacts: seq<Contact>): (r: int)
    ensures 0 <= r <= |contacts|
  {
    |Lists.Filter(contacts, ActiveTest())|
  }

  /** Each count is the number of list elements meeting its condition: a sum
      of one per qualifying element. */
  lemma CountsCountQualifying(deals: seq<Deal>, contacts: seq<Contact>)
    ensures WonDeals(deals) == Lists.Sum(deals, Lists.Masked(PipelineBoard.StageTest("Closed Won"), Lists.One()))
    ensures OpenDealCount(deals) == Lists.Sum(deals, Lists.Masked(Pipeline.OpenTest(), Lists.One()))
    ensures ActiveContacts(contacts) == Lists.Sum(contacts, Lists.Masked(ActiveTest(), Lists.One()))
  {
    Lists.SumFilter(deals, PipelineBoard.StageTest("Closed Won"), Lists.One());
    Lists.SumOfOnes(Lists.Filter(deals, PipelineBoard.StageTest("Closed Won")));
    Lists.SumFilter(deals, Pipeline.OpenTest(), Lists.One());
    Lists.SumOfOnes(Lists.Filter(deals, Pipeline.OpenTest()));
    Lists.SumFilter(contacts, ActiveTest(), Lists.One());
    Lists.SumOfOnes(Lists.Filter(contacts, ActiveTest()));
  }

  /** The chart entries for the stages ks: each stage with its deal count. */
  function StageCounts(deals: seq<Deal>, ks: seq<string>): (r: seq<(string, int)>)
    ensures |r| == |ks|
    ensures forall i :: 0 <= i < |ks| ==> r[i].0 == ks[i] && r[i].1 == |PipelineBoard.DealsByStage(deals, ks[i])|
    decreases |ks|
  {
    if ks == [] then []
    else
      var rest := StageCounts(deals, ks[1..]);
      assert forall i :: 1 <= i < |ks| ==> ks[i] == ks[1..][i - 1];
      [(ks[0], |PipelineBoard.DealsByStage(deals, ks[0])|)] + rest
  }

  /** `dealsByStage`: the six stages in board order, each with its count. */
  function DealsByStage(deals: seq<Deal>): (r: seq<(string, int)>)
    ensures |r| == |PipelineBoard.Stages|
    ensures forall i :: 0 <= i < |r| ==> r[i].0 == PipelineBoard.Stages[i] && 0 <= r[i].1 <= |deals|
  {
    StageCounts(deals, PipelineBoard.Stages)
  }

  /** The "Closed Won" bar is the won-deal figure. */
  lemma ClosedWonBarIsWonDeals(deals: seq<Deal>)
    ensures |DealsByStage(deals)| == 6 && DealsByStage(deals)[4] == ("Closed Won", WonDeals(deals))
  {
  }

  function CountsTotal(counts: seq<(string, int)>): int {
    if counts == [] then 0 else counts[0].1 + CountsTotal(counts[1..])
  }

  lemma {:induction false} StageCountsTotal(deals: seq<Deal>, ks: seq<string>)
    ensures CountsTotal(StageCounts(deals, ks)) == PipelineBoard.ColumnCountTotal(deals, ks)
    decreases |ks|
  {
    if ks != [] {
      StageCountsTotal(deals, ks[1..]);
      assert StageCounts(deals, ks)[1..] == StageCounts(deals, ks[1..]);
    }
  }

  /** The six counts add up to at most the number of deals, and to exactly
      that number when every deal is in one of the six stages. */
  lemma DealsByStageAddsUp(deals: seq<Deal>)
    ensures CountsTotal(DealsByStage(deals)) <= |deals|
    ensures (forall i :: 0 <= i < |deals| ==> deals[i].stage in PipelineBoard.Stages) ==> CountsTotal(DealsByStage(deals)) == |deals|
  {
    StageCountsTotal(deals, PipelineBoard.Stages);
    PipelineBoard.ColumnCountsCoverDeals(deals);
  }
}
