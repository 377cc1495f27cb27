/**
 * The management dashboard's figures over the beneficiaries and the
 * rehabilitation plans: plan coverage, goal tallies per goal type, average
 * progress per department and the operational alerts.
 */
module DashboardMetrics {
  import opened Common
  import opened Records
  import opened RehabTypes

  /** Per goal type: how many goals, how many completed, and their progress summed. */
  datatype Tally = Tally(total: int, completed: int, progressSum: int)

  /** The goal types in the order the tallies are declared. */
  const GoalTypes: seq<GoalType> := [Medical, Social, Psychological, Physiotherapy, Occupational]

  function OfType(t: GoalType): SmartGoal -> bool {
    (g: SmartGoal) => g.goalType == t
  }

  function CompletedOfType(t: GoalType): SmartGoal -> bool {
    (g: SmartGoal) => g.goalType == t && GoalCompleted(g)
  }

  function ProgressOfType(t: GoalType): SmartGoal -> int {
    (g: SmartGoal) => if g.goalType == t then g.progress else 0
  }

  function ProgressOf(): SmartGoal -> int {
    (g: SmartGoal) => g.progress
  }

  /** Every goal of every plan, plan by plan. */
  function AllGoals(plans: seq<RehabPlan>): seq<SmartGoal> {
    if plans == [] then [] else plans[0].goals + AllGoals(plans[1..])
  }

  lemma {:induction false} AllGoalsSnoc(plans: seq<RehabPlan>, p: RehabPlan)
    ensures AllGoals(plans + [p]) == AllGoals(plans) + p.goals
  {
    if plans == [] {
      assert plans + [p] == [p];
      assert AllGoals([p]) == p.goals + AllGoals([]);
    } else {
      assert (plans + [p])[1..] == plans[1..] + [p];
      AllGoalsSnoc(plans[1..], p);
    }
  }

  /** The tally of one goal type over a list of goals. */
  function TallyOf(goals: seq<SmartGoal>, t: GoalType): Tally {
    Tally(|Filter(OfType(t), goals)|, |Filter(CompletedOfType(t), goals)|, SumOf(ProgressOfType(t), goals))
  }

  /** One more goal counted into its type's tally. */
  function Add(tl: Tally, g: SmartGoal): Tally {
    Tally(tl.total + 1, tl.completed + (if GoalCompleted(g) then 1 else 0), tl.progressSum + g.progress)
  }

  lemma TallySnoc(goals: seq<SmartGoal>, g: SmartGoal, t: GoalType)
    ensures TallyOf(goals + [g], t) == if g.goalType == t then Add(TallyOf(goals, t), g) else TallyOf(goals, t)
  {
    FilterAppend(OfType(t), goals, [g]);
    FilterAppend(CompletedOfType(t), goals, [g]);
    SumAppend(ProgressOfType(t), goals, [g]);
    FilterSingleton(OfType(t), g);
    FilterSingleton(CompletedOfType(t), g);
    SumSingleton(ProgressOfType(t), g);
  }

  const ZeroTally: Tally := Tally(0, 0, 0)

  /** The per-type tallies match a list of goals already seen. */
  predicate TalliesOf(byType: map<GoalType, Tally>, seen: seq<SmartGoal>) {
    forall t :: t in byType && byType[t] == TallyOf(seen, t)
  }

  /** Counting one more goal into its type keeps the tallies exact. */
  lemma CountOne(byType: map<GoalType, Tally>, seen: seq<SmartGoal>, g: SmartGoal)
    requires TalliesOf(byType, seen)
    ensures g.goalType in byType
    ensures TalliesOf(byType[g.goalType := Add(byType[g.goalType], g)], seen + [g])
  {
    forall t ensures TallyOf(seen + [g], t) == if g.goalType == t then Add(TallyOf(seen, t), g) else TallyOf(seen, t) {
      TallySnoc(seen, g, t);
    }
  }

  /**
   * The nested loops over plans and their goals: the goal count, the
   * progress sum and the per-type tallies, each updated goal by goal.
   */
  method GoalTallies(plans: seq<RehabPlan>) returns (totalGoals: int, totalProgress: int, byType: map<GoalType, Tally>)
    ensures totalGoals == |AllGoals(plans)|
    ensures totalProgress == SumOf(ProgressOf(), AllGoals(plans))
    ensures TalliesOf(byType, AllGoals(plans))
  {
    totalGoals, totalProgress := 0, 0;
    byType := map[Medical := ZeroTally, Social := ZeroTally, Psychological := ZeroTally,
                  Physiotherapy := ZeroTally, Occupational := ZeroTally];
    forall t ensures t in byType && byType[t] == TallyOf([], t) {
      match t
      case Medical =>
      case Social =>
      case Psychological =>
      case Physiotherapy =>
      case Occupational =>
    }
    assert AllGoals(plans[..0]) == [];
    var i := 0;
    while i < |plans|
      invariant 0 <= i <= |plans|
      invariant totalGoals == |AllGoals(plans[..i])|
      invariant totalProgress == SumOf(ProgressOf(), AllGoals(plans[..i]))
      invariant TalliesOf(byType, AllGoals(plans[..i]))
    {
      totalGoals, totalProgress, byType := PlanGoals(plans[i].goals, AllGoals(plans[..i]), totalGoals, totalProgress, byType);
      assert plans[..i + 1] == plans[..i] + [plans[i]];
      AllGoalsSnoc(plans[..i], plans[i]);
      i := i + 1;
    }
    assert plans[..|plans|] == plans;
  }

  /** The inner loop: one plan's goals counted after the goals already seen. */
  method PlanGoals(goals: seq<SmartGoal>, ghost before: seq<SmartGoal>,
                   totalGoals0: int, totalProgress0: int, byType0: map<GoalType, Tally>)
    returns (totalGoals: int, totalProgress: int, byType: map<GoalType, Tally>)
    requires totalGoals0 == |before| && totalProgress0 == SumOf(ProgressOf(), before)
    requires TalliesOf(byType0, before)
    ensures totalGoals == |before + goals| && totalProgress == SumOf(ProgressOf(), before + goals)
    ensures TalliesOf(byType, before + goals)
  {
    totalGoals, totalProgress, byType := totalGoals0, totalProgress0, byType0;
    var j := 0;
    assert before + goals[..0] == before;
    while j < |goals|
      invariant 0 <= j <= |goals|
      invariant totalGoals == |before + goals[..j]|
      invariant totalProgress == SumOf(ProgressOf(), before + goals[..j])
      invariant TalliesOf(byType, before + goals[..j])
    {
      var g := goals[j];
      ghost var seen := before + goals[..j];
      assert before + goals[..j + 1] == seen + [g];
      SumAppend(ProgressOf(), seen, [g]);
      SumSingleton(ProgressOf(), g);
      CountOne(byType, seen, g);
      totalGoals := totalGoals + 1;
      totalProgress := totalProgress + g.progress;
      if g.goalType in byType {
        byType := byType[g.goalType := Add(byType[g.goalType], g)];
      }
      j := j + 1;
    }
    assert goals[..|goals|] == goals;
  }

  /** One row of the department table. */
  datatype DeptRow = DeptRow(goalType: GoalType, avgProgress: int, totalGoals: int)

  function RowOf(t: GoalType, tl: Tally): DeptRow {
    DeptRow(t, if tl.total > 0 then RoundDiv(tl.progressSum, tl.total) else 0, tl.total)
  }

  /** A row for each goal type, in declaration order, before dropping the empty ones. */
  function AllRows(goals: seq<SmartGoal>): (rows: seq<DeptRow>)
    ensures |rows| == |GoalTypes|
    ensures forall k :: 0 <= k < |rows| ==> rows[k] == RowOf(GoalTypes[k], TallyOf(goals, GoalTypes[k]))
  {
    seq(|GoalTypes|, k requires 0 <= k < |GoalTypes| => RowOf(GoalTypes[k], TallyOf(goals, GoalTypes[k])))
  }

  function HasGoals(): DeptRow -> bool {
    (r: DeptRow) => r.totalGoals > 0
  }

  datatype Metrics = Metrics(
    totalBeneficiaries: int,
    activeBeneficiaries: int,
    planComplianceRate: int,
    overallGoalAchievementRate: int,
    activePlansCount: int,
    draftPlansCount: int,
    departmentPerformance: seq<DeptRow>,
    pendingDirectorApprovals: int,
    criticalCasesCount: int)

  predicate IsActive(b: Beneficiary) { b.status == Some(ActiveStatus) }

  predicate AwaitsDirector(p: RehabPlan) {
    exists a :: a in p.approvals && a.role == ByDirector && a.status == ApprovalPending
  }

  /** The dashboard's figures as functions of the two lists. */
  function MetricsOf(beneficiaries: seq<Beneficiary>, plans: seq<RehabPlan>): Metrics {
    var goals := AllGoals(plans);
    var active := |Filter((p: RehabPlan) => p.status == PlanActive, plans)|;
    Metrics(
      |beneficiaries|,
      |Filter(IsActive, beneficiaries)|,
      if |beneficiaries| > 0 then RoundPercent(active, |beneficiaries|) else 0,
      if |goals| > 0 then RoundDiv(SumOf(ProgressOf(), goals), |goals|) else 0,
      active,
      |Filter((p: RehabPlan) => p.status == PlanDraft, plans)|,
      Filter(HasGoals(), AllRows(goals)),
      |Filter(AwaitsDirector, plans)|,
      |Filter((p: RehabPlan) => p.socialContext.riskLevel == HighRisk, plans)|)
  }

  /** The hook: the goal loops, then the counts, rates and department rows. */
  method ComputeMetrics(beneficiaries: seq<Beneficiary>, plans: seq<RehabPlan>) returns (m: Metrics)
    ensures m == MetricsOf(beneficiaries, plans)
  {
    var totalBeneficiaries := |beneficiaries|;
    var activePlansCount := |Filter((p: RehabPlan) => p.status == PlanActive, plans)|;
    var planComplianceRate := if totalBeneficiaries > 0 then RoundPercent(activePlansCount, totalBeneficiaries) else 0;
    var totalGoals, totalProgress, byType := GoalTallies(plans);
    var overall := if totalGoals > 0 then RoundDiv(totalProgress, totalGoals) else 0;
    var rows := seq(|GoalTypes|, k requires 0 <= k < |GoalTypes| => RowOf(GoalTypes[k], byType[GoalTypes[k]]));
    assert rows == AllRows(AllGoals(plans));
    m := Metrics(
      totalBeneficiaries,
      |Filter(IsActive, beneficiaries)|,
      planComplianceRate,
      overall,
      activePlansCount,
      |Filter((p: RehabPlan) => p.status == PlanDraft, plans)|,
      Filter(HasGoals(), rows),
      |Filter(AwaitsDirector, plans)|,
      |Filter((p: RehabPlan) => p.socialContext.riskLevel == HighRisk, plans)|);
  }

  /** Each goal is counted under exactly one type: the five totals add up to the goal count. */
  lemma {:induction false} TypeTotalsCoverGoals(goals: seq<SmartGoal>)
    ensures TallyOf(goals, Medical).total + TallyOf(goals, Social).total + TallyOf(goals, Psychological).total +
            TallyOf(goals, Physiotherapy).total + TallyOf(goals, Occupational).total == |goals|
  {
    if goals != [] {
      TypeTotalsCoverGoals(goals[1..]);
    }
  }

  /** A type's completed goals are among its goals. */
  lemma CompletedWithinTotal(goals: seq<SmartGoal>, t: GoalType)
    ensures 0 <= TallyOf(goals, t).completed <= TallyOf(goals, t).total
  {
    FilterWeaker(CompletedOfType(t), OfType(t), goals);
  }

  /** The goal count is the number of goals over all plans, plan by plan. */
  lemma {:induction false} GoalCountIsSumOfPlanSizes(plans: seq<RehabPlan>)
    ensures |AllGoals(plans)| == SumOf((p: RehabPlan) => |p.goals|, plans)
  {
    if plans != [] {
      GoalCountIsSumOfPlanSizes(plans[1..]);
    }
  }

  /**
   * The rates are 0 on an empty denominator, and percentages stay within
   * 0..100 when every goal's progress does and no more plans are active
   * than there are beneficiaries.
   */
  lemma RatesInRange(beneficiaries: seq<Beneficiary>, plans: seq<RehabPlan>)
    requires forall g :: g in AllGoals(plans) ==> 0 <= g.progress <= 100
    ensures var m := MetricsOf(beneficiaries, plans);
      (beneficiaries == [] ==> m.planComplianceRate == 0) &&
      (AllGoals(plans) == [] ==> m.overallGoalAchievementRate == 0) &&
      (m.activePlansCount <= |beneficiaries| ==> 0 <= m.planComplianceRate <= 100) &&
      0 <= m.overallGoalAchievementRate <= 100 &&
      (forall r :: r in m.departmentPerformance ==> 0 <= r.avgProgress <= 100)
  {
    var m := MetricsOf(beneficiaries, plans);
    var goals := AllGoals(plans);
    if m.activePlansCount <= |beneficiaries| && |beneficiaries| > 0 {
      RoundPercentRange(m.activePlansCount, |beneficiaries|);
    }
    if |goals| > 0 {
      SumMonotone(ProgressOf(), (g: SmartGoal) => 100, goals);
      ConstantSum(100, goals);
      SumNonNegative(ProgressOf(), goals);
      RoundDivRange(SumOf(ProgressOf(), goals), |goals|);
    }
    forall r | r in m.departmentPerformance ensures 0 <= r.avgProgress <= 100 {
      var k :| 0 <= k < |AllRows(goals)| && AllRows(goals)[k] == r;
      var t := GoalTypes[k];
      var tl := TallyOf(goals, t);
      TypeProgressBound(goals, t);
      if tl.total > 0 {
        RoundDivRange(tl.progressSum, tl.total);
      }
    }
  }

  lemma {:induction false} ConstantSum(c: int, goals: seq<SmartGoal>)
    ensures SumOf((g: SmartGoal) => c, goals) == c * |goals|
  {
    if goals != [] {
      ConstantSum(c, goals[1..]);
    }
  }

  /** A type's progress sum lies between 0 and 100 per goal of that type. */
  lemma {:induction false} TypeProgressBound(goals: seq<SmartGoal>, t: GoalType)
    requires forall g :: g in goals ==> 0 <= g.progress <= 100
    ensures 0 <= TallyOf(goals, t).progressSum <= 100 * TallyOf(goals, t).total
  {
    if goals != [] {
      TypeProgressBound(goals[1..], t);
    }
  }

  function TypeIndex(t: GoalType): (k: int)
    ensures 0 <= k < |GoalTypes| && GoalTypes[k] == t
  {
    match t
    case Medical => 0
    case Social => 1
    case Psychological => 2
    case Physiotherapy => 3
    case Occupational => 4
  }

  /**
   * The department table lists exactly the goal types that have goals,
   * each with its own tally, in declaration order.
   */
  lemma DepartmentRowsExact(beneficiaries: seq<Beneficiary>, plans: seq<RehabPlan>)
    ensures var rows := MetricsOf(beneficiaries, plans).departmentPerformance;
      var goals := AllGoals(plans);
      IsSubsequence(rows, AllRows(goals)) &&
      (forall r :: r in rows ==> r.totalGoals > 0 && r == RowOf(r.goalType, TallyOf(goals, r.goalType))) &&
      (forall t :: TallyOf(goals, t).total > 0 ==> RowOf(t, TallyOf(goals, t)) in rows)
  {
    var goals := AllGoals(plans);
    var all := AllRows(goals);
    var rows := Filter(HasGoals(), all);
    assert rows == MetricsOf(beneficiaries, plans).departmentPerformance;
    FilterIsSubsequence(HasGoals(), all);
    RowsPresent(goals);
    RowsAreTallies(goals);
  }

  lemma RowsPresent(goals: seq<SmartGoal>)
    ensures forall t :: TallyOf(goals, t).total > 0 ==> RowOf(t, TallyOf(goals, t)) in Filter(HasGoals(), AllRows(goals))
  {
    var all := AllRows(goals);
    forall t | TallyOf(goals, t).total > 0 ensures RowOf(t, TallyOf(goals, t)) in Filter(HasGoals(), all) {
      var k := TypeIndex(t);
      assert all[k] == RowOf(t, TallyOf(goals, t));
      assert all[k] in all;
      assert HasGoals()(all[k]);
    }
  }

  lemma RowsAreTallies(goals: seq<SmartGoal>)
    ensures forall r :: r in Filter(HasGoals(), AllRows(goals)) ==>
      r.totalGoals > 0 && r == RowOf(r.goalType, TallyOf(goals, r.goalType))
  {
    var all := AllRows(goals);
    forall r | r in Filter(HasGoals(), all)
      ensures r.totalGoals > 0 && r == RowOf(r.goalType, TallyOf(goals, r.goalType))
    {
      assert r in all && HasGoals()(r);
      var k :| 0 <= k < |all| && all[k] == r;
    }
  }

  /** Alerts and plan counts never exceed the number of plans. */
  lemma CountsBounded(beneficiaries: seq<Beneficiary>, plans: seq<RehabPlan>)
    ensures var m := MetricsOf(beneficiaries, plans);
      m.activePlansCount + m.draftPlansCount <= |plans| &&
      m.pendingDirectorApprovals <= |plans| && m.criticalCasesCount <= |plans| &&
      m.activeBeneficiaries <= m.totalBeneficiaries
  {
    var act := (p: RehabPlan) => p.status == PlanActive;
    var dr := (p: RehabPlan) => p.status == PlanDraft;
    var either := (p: RehabPlan) => p.status == PlanActive || p.status == PlanDraft;
    FilterDisjoint(act, dr, either, plans);
  }
}
