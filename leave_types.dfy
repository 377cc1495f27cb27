/**
 * Leave-request records: the workflow status, the append-only audit trail
 * entries and the optional medical clearance snapshot, plus the acting user
 * as the application context describes it (whose roles have no director).
 */
module LeaveTypes {
  import opened Common

  /** The roles of the application context's current user. */
  datatype AppRole = Admin | Doctor | SocialWorker | Nurse

  datatype AppUser = AppUser(id: string, name: string, role: AppRole)

  datatype LeaveStatus =
    | PendingSocial
    | PendingMedical
    | PendingDirector
    | Approved
    | Rejected
    | Active
    | Completed
    | Overdue

  datatype ActionKind = ApproveAction | RejectAction | RequestAction | CancelAction

  /** One audit-trail entry. The stored role is the acting user's role. */
  datatype LeaveAction = LeaveAction(
    actionBy: string,
    actionByName: string,
    role: AppRole,
    actionDate: string,
    action: ActionKind,
    notes: Option<string>)

  datatype LeaveType = HomeVisit | Hospital | Picnic | OtherLeave

  datatype MedicalClearance = MedicalClearance(
    clearedBy: string,
    clearedAt: string,
    isFit: bool,
    precautions: Option<string>,
    medicationsToTake: Option<seq<string>>)

  datatype LeaveRequest = LeaveRequest(
    id: string,
    beneficiaryId: string,
    beneficiaryName: string,
    requestDate: string,
    leaveType: LeaveType,
    startDate: string,
    endDate: string,
    durationDays: int,
    guardianName: string,
    guardianPhone: string,
    reason: string,
    status: LeaveStatus,
    history: seq<LeaveAction>,
    medicalClearance: Option<MedicalClearance>,
    actualReturnDate: Option<string>)
}
