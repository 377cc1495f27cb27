// The sustainability report: goal achievement over the rehabilitation plans,
// the asset utilisation rate, the incident response rate and the per-type
// achievement table.

module SustainabilityReport {
  import opened Common
  import opened RehabTypes
  import opened DashboardMetrics
  import opened AssetTypes
  import opened AssetRegistry
  import opened SupportDashboard
  import opened QualityTypes

  // ---------------------------------------------------------------------
  // Goal achievement

  /** A goal counts as achieved when its status says so or its progress is 100. */
  function IsAchieved(): SmartGoal -> bool {
    (g: SmartGoal) => GoalCompleted(g)
  }

  function GoalsIn(): RehabPlan -> int {
    (p: RehabPlan) => |p.goals|
  }

  function AchievedIn(): RehabPlan -> int {
    (p: RehabPlan) => |Filter(IsAchieved(), p.goals)|
  }

  /** The goals of all plans, summed plan by plan. */
  function TotalGoals(plans: seq<RehabPlan>): int {
    SumOf(GoalsIn(), plans)
  }

  /** The achieved goals of all plans, summed plan by plan. */
  function AchievedGoals(plans: seq<RehabPlan>): int {
    SumOf(AchievedIn(), plans)
  }

  /**
   * The plan-by-plan sums count the same goals as the flattened goal list:
   * the total is its length and the achieved count its achieved goals.
   */
  lemma {:induction false} SumsCountFlattenedGoals(plans: seq<RehabPlan>)
    ensures TotalGoals(plans) == |AllGoals(plans)|
    ensures AchievedGoals(plans) == |Filter(IsAchieved(), AllGoals(plans))|
  {
    if plans != [] {
      SumsCountFlattenedGoals(plans[1..]);
      FilterAppend(IsAchieved(), plans[0].goals, AllGoals(plans[1..]));
    }
  }

  /** No more goals are achieved than planned, and neither count is negative. */
  lemma AchievedWithinTotal(plans: seq<RehabPlan>)
    ensures 0 <= AchievedGoals(plans) <= TotalGoals(plans)
  {
    SumsCountFlattenedGoals(plans);
  }

  /** The share of achieved goals as a rounded percentage, 0 when there are no goals. */
  function SuccessRate(plans: seq<RehabPlan>): (r: int)
    ensures 0 <= r <= 100
    ensures TotalGoals(plans) == 0 ==> r == 0
    ensures AchievedGoals(plans) == 0 ==> r == 0
    ensures TotalGoals(plans) > 0 && AchievedGoals(plans) == TotalGoals(plans) ==> r == 100
  {
    AchievedWithinTotal(plans);
    var total := TotalGoals(plans);
    if total > 0 then
      RoundPercentRange(AchievedGoals(plans), total);
      RoundPercent(AchievedGoals(plans), total)
    else 0
  }

  // ---------------------------------------------------------------------
  // Asset utilisation

  function TotalAssetValue(assets: seq<FixedAsset>): int {
    SumOf(ValueOf(), assets)
  }

  /** The summed value of the damaged assets. */
  function DamagedAssetValue(assets: seq<FixedAsset>): int {
    SumOf(ValueOf(), Filter(HasCondition(Damaged), assets))
  }

  /** With non-negative values, the damaged value is part of the whole. */
  lemma DamagedWithinTotal(assets: seq<FixedAsset>)
    requires forall a :: a in assets ==> a.value >= 0
    ensures 0 <= DamagedAssetValue(assets) <= TotalAssetValue(assets)
  {
    SumFilterBound(ValueOf(), HasCondition(Damaged), assets);
  }

  /**
   * The share of the asset value not damaged, as a rounded percentage.
   * The source divides without a guard, so an empty or worthless asset list
   * gives NaN; that case is `None` here. Asset values are taken to be
   * non-negative.
   */
  function AssetUtilizationRate(assets: seq<FixedAsset>): (r: Option<int>)
    requires forall a :: a in assets ==> a.value >= 0
    ensures r.None? <==> TotalAssetValue(assets) == 0
    ensures r.Some? ==> 0 <= r.value <= 100
    ensures r.Some? && DamagedAssetValue(assets) == 0 ==> r.value == 100
    ensures r.Some? && DamagedAssetValue(assets) == TotalAssetValue(assets) ==> r.value == 0
  {
    DamagedWithinTotal(assets);
    var total := TotalAssetValue(assets);
    if total == 0 then None
    else
      RoundPercentRange(total - DamagedAssetValue(assets), total);
      Some(RoundPercent(total - DamagedAssetValue(assets), total))
  }

  /** On the demonstration assets, 146500 of 151500 is in service: 97%. */
  lemma MockAssetUtilization()
    ensures AssetUtilizationRate(MockAssets) == Some(97)
  {
    MockAssetValue();
    MockDamagedCount();
    assert MockAssets[1].value == 5000;
    SumSingleton(ValueOf(), MockAssets[1]);
    assert DamagedAssetValue(MockAssets) == 5000;
    QuotientOf(200 * 146500 + 151500, 2 * 151500, 97);
  }

  // ---------------------------------------------------------------------
  // Incident response

  function IsClosedIncident(): Incident -> bool {
    (i: Incident) => i.status == IncidentClosed
  }

  /** All incidents closed means all are counted, none closed means none are. */
  lemma ClosedCountEnds(incidents: seq<Incident>)
    ensures (forall i :: i in incidents ==> i.status == IncidentClosed) ==>
      |Filter(IsClosedIncident(), incidents)| == |incidents|
    ensures (forall i :: i in incidents ==> i.status != IncidentClosed) ==>
      |Filter(IsClosedIncident(), incidents)| == 0
  {
    if forall i :: i in incidents ==> i.status == IncidentClosed {
      FilterAll(IsClosedIncident(), incidents);
    }
    if forall i :: i in incidents ==> i.status != IncidentClosed {
      FilterNone(IsClosedIncident(), incidents);
    }
  }

  /** The share of closed incidents as a rounded percentage, 100 when there are none. */
  function SafetyResponseRate(incidents: seq<Incident>): (r: int)
    ensures 0 <= r <= 100
    ensures incidents == [] ==> r == 100
    ensures (forall i :: i in incidents ==> i.status == IncidentClosed) ==> r == 100
    ensures incidents != [] && (forall i :: i in incidents ==> i.status != IncidentClosed) ==> r == 0
  {
    if |incidents| > 0 then
      var closed := |Filter(IsClosedIncident(), incidents)|;
      ClosedCountEnds(incidents);
      RoundPercentRange(closed, |incidents|);
      RoundPercent(closed, |incidents|)
    else 100
  }

  /** On the demonstration incidents, one of two is closed: 50%. */
  lemma MockSafetyResponse()
    ensures SafetyResponseRate(MockIncidents) == 50
  {
    var s := MockIncidents;
    assert s == [s[0]] + [s[1]];
    FilterSingleton(IsClosedIncident(), s[0]);
    FilterSingleton(IsClosedIncident(), s[1]);
    FilterAppend(IsClosedIncident(), [s[0]], [s[1]]);
  }

  // ---------------------------------------------------------------------
  // The per-type table

  /** The goal types the table lists, in its order; occupational goals are not among them. */
  const ReportTypes: seq<GoalType> := [Medical, Social, Psychological, Physiotherapy]

  datatype TypeRow = TypeRow(goalType: GoalType, total: int, achieved: int, rate: int)

  /** One row: the goals of the type over all plans, the achieved ones, and the rounded rate. */
  function RowFor(plans: seq<RehabPlan>, t: GoalType): (row: TypeRow)
    ensures row.goalType == t
    ensures 0 <= row.achieved <= row.total && 0 <= row.rate <= 100
    ensures row.total == 0 ==> row.rate == 0
  {
    var typeGoals := Filter(OfType(t), AllGoals(plans));
    var achieved := |Filter(IsAchieved(), typeGoals)|;
    if |typeGoals| > 0 then
      RoundPercentRange(achieved, |typeGoals|);
      TypeRow(t, |typeGoals|, achieved, RoundPercent(achieved, |typeGoals|))
    else TypeRow(t, 0, achieved, 0)
  }

  function TypeTable(plans: seq<RehabPlan>): (rows: seq<TypeRow>)
    ensures |rows| == |ReportTypes|
    ensures forall k :: 0 <= k < |rows| ==> rows[k] == RowFor(plans, ReportTypes[k])
  {
    seq(|ReportTypes|, k requires 0 <= k < |ReportTypes| => RowFor(plans, ReportTypes[k]))
  }

  /** A row's counts are the type's tally on the management dashboard. */
  lemma RowIsTally(plans: seq<RehabPlan>, t: GoalType)
    ensures RowFor(plans, t).total == TallyOf(AllGoals(plans), t).total
    ensures RowFor(plans, t).achieved == TallyOf(AllGoals(plans), t).completed
  {
    FilterCompose(IsAchieved(), OfType(t), CompletedOfType(t), AllGoals(plans));
  }

  /**
   * The table leaves out exactly the occupational goals: no row is
   * occupational, and the four row totals and the occupational goals
   * together make up all the goals.
   */
  lemma TableOmitsOccupational(plans: seq<RehabPlan>)
    ensures forall k :: 0 <= k < |TypeTable(plans)| ==> TypeTable(plans)[k].goalType != Occupational
    ensures var rows := TypeTable(plans);
      rows[0].total + rows[1].total + rows[2].total + rows[3].total +
      TallyOf(AllGoals(plans), Occupational).total == TotalGoals(plans)
  {
    var goals := AllGoals(plans);
    var rows := TypeTable(plans);
    assert rows[0].total == TallyOf(goals, Medical).total by { RowIsTally(plans, Medical); }
    assert rows[1].total == TallyOf(goals, Social).total by { RowIsTally(plans, Social); }
    assert rows[2].total == TallyOf(goals, Psychological).total by { RowIsTally(plans, Psychological); }
    assert rows[3].total == TallyOf(goals, Physiotherapy).total by { RowIsTally(plans, Physiotherapy); }
    TypeTotalsCoverGoals(goals);
    SumsCountFlattenedGoals(plans);
  }
}
