/**
 * Individual rehabilitation plans: SMART goals, the three sign-off records
 * (doctor, social worker, director) and the plan that carries them.
 */
module RehabTypes {
  import opened Common

  datatype GoalType = Medical | Social | Psychological | Physiotherapy | Occupational

  datatype GoalStatus = GoalPending | GoalInProgress | GoalAchieved | GoalDelayed

  /** `progress` is a percentage, 0 to 100, as the editor's slider sets it. */
  datatype SmartGoal = SmartGoal(
    id: string,
    goalType: GoalType,
    title: string,
    description: Option<string>,
    measureOfSuccess: string,
    targetDate: string,
    progress: int,
    status: GoalStatus,
    assignedTo: string)

  datatype ApprovalRole = ByDoctor | BySocialWorker | ByDirector

  datatype ApprovalStatus = ApprovalPending | ApprovalApproved | ApprovalRejected

  datatype PlanApproval = PlanApproval(
    role: ApprovalRole,
    status: ApprovalStatus,
    approvedBy: Option<string>,
    approvedAt: Option<string>,
    notes: Option<string>)

  datatype MedicalContext = MedicalContext(diagnosis: string, needs: seq<string>)

  datatype SocialRisk = LowRisk | MediumRisk | HighRisk

  datatype SocialContext = SocialContext(economicStatus: string, riskLevel: SocialRisk)

  datatype PlanStatus = PlanDraft | PlanActive | PlanCompleted | PlanArchived

  datatype RehabPlan = RehabPlan(
    id: string,
    beneficiaryId: string,
    beneficiaryName: string,
    startDate: string,
    endDate: string,
    medicalContext: MedicalContext,
    socialContext: SocialContext,
    goals: seq<SmartGoal>,
    approvals: seq<PlanApproval>,
    status: PlanStatus)

  /** A goal counts as completed when achieved or at full progress. */
  predicate GoalCompleted(g: SmartGoal) {
    g.status == GoalAchieved || g.progress == 100
  }
}
