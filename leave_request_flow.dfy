/**
 * The leave-request approval workflow: a social worker files a request, the
 * doctor gives medical clearance, the administrator (acting as director)
 * takes the final decision, and every decision is appended to the request's
 * audit trail. The handlers are record functions; the component's state is
 * the class `LeaveRequestBoard`.
 */
module LeaveRequestFlow {
  import opened Common
  import opened Records
  import opened LeaveTypes

  const CreatedNote: string := "تم إنشاء الطلب"

  /** The audit-trail entry the acting user leaves behind. */
  function Entry(user: AppUser, now: string, kind: ActionKind, note: string): (e: LeaveAction)
    ensures e.actionBy == user.id && e.actionByName == user.name && e.role == user.role
    ensures e.action == kind && e.notes == Some(note) && e.actionDate == now
  {
    LeaveAction(user.id, user.name, user.role, now, kind, Some(note))
  }

  /** The date part of an ISO timestamp: everything before the first 'T'. */
  function DatePart(iso: string): (d: string)
    ensures d <= iso
    ensures 'T' !in d
    ensures |d| < |iso| ==> iso[|d|] == 'T'
  {
    if iso == [] then []
    else if iso[0] == 'T' then []
    else [iso[0]] + DatePart(iso[1..])
  }

  lemma DatePartExample()
    ensures DatePart("2024-05-01T08:30:00Z") == "2024-05-01"
  {
    assert "2024-05-01T08:30:00Z" == "2024-05-01" + "T08:30:00Z";
    DatePartPrefix("2024-05-01", "T08:30:00Z");
  }

  lemma {:induction false} DatePartPrefix(date: string, rest: string)
    requires 'T' !in date && |rest| > 0 && rest[0] == 'T'
    ensures DatePart(date + rest) == date
  {
    if date != [] {
      assert (date + rest)[1..] == date[1..] + rest;
      DatePartPrefix(date[1..], rest);
    } else {
      assert date + rest == rest;
    }
  }

  /** The new-request form: a partial request whose fields may be unset. */
  datatype LeaveDraft = LeaveDraft(
    leaveType: Option<LeaveType>,
    startDate: Option<string>,
    endDate: Option<string>,
    reason: Option<string>,
    guardianName: Option<string>,
    guardianPhone: Option<string>)

  const InitialDraft: LeaveDraft :=
    LeaveDraft(Some(HomeVisit), Some(""), Some(""), Some(""), Some(""), Some(""))

  const ClearedDraft: LeaveDraft := LeaveDraft(None, None, None, None, None, None)

  /** The request the social worker creates: pending medical review, one entry. */
  function NewRequest(b: Beneficiary, draft: LeaveDraft, user: AppUser, stamp: string, now: string): (r: LeaveRequest)
    ensures r.id == "LR-" + stamp
    ensures r.beneficiaryId == b.id && r.beneficiaryName == b.fullName
    ensures r.status == PendingMedical && r.durationDays == 2
    ensures r.requestDate == DatePart(now) && r.requestDate <= now && 'T' !in r.requestDate
    ensures r.leaveType == draft.leaveType.GetOr(HomeVisit)
    ensures r.history == [Entry(user, now, RequestAction, CreatedNote)]
    ensures r.medicalClearance.None? && r.actualReturnDate.None?
    ensures r.startDate == draft.startDate.GetOr("") && r.endDate == draft.endDate.GetOr("")
    ensures r.reason == draft.reason.GetOr("")
    ensures r.guardianName == draft.guardianName.GetOr("") && r.guardianPhone == draft.guardianPhone.GetOr("")
  {
    LeaveRequest(
      "LR-" + stamp, b.id, b.fullName, DatePart(now),
      draft.leaveType.GetOr(HomeVisit),
      draft.startDate.GetOr(""), draft.endDate.GetOr(""), 2,
      draft.guardianName.GetOr(""), draft.guardianPhone.GetOr(""), draft.reason.GetOr(""),
      PendingMedical, [Entry(user, now, RequestAction, CreatedNote)], None, None)
  }

  /** A request created at an ISO timestamp is dated with that timestamp's day. */
  lemma NewRequestDatedToday(b: Beneficiary, draft: LeaveDraft, user: AppUser, stamp: string,
                             date: string, time: string)
    requires 'T' !in date && |time| > 0 && time[0] == 'T'
    ensures NewRequest(b, draft, user, stamp, date + time).requestDate == date
  {
    DatePartPrefix(date, time);
  }

  /**
   * The approve handler on one record. A doctor approving a request pending
   * medical review clears it medically and forwards it to the director; the
   * administrator approving a request pending the director approves it; any
   * other combination keeps the status. The entry is appended in every case.
   */
  function ApprovedRecord(request: LeaveRequest, user: AppUser, now: string, note: string): (r: LeaveRequest)
    ensures r.history == request.history + [Entry(user, now, ApproveAction, note)]
    ensures user.role == Doctor && request.status == PendingMedical ==>
      r.status == PendingDirector &&
      r.medicalClearance == Some(MedicalClearance(user.id, now, true, Some(note), None))
    ensures user.role == Admin && request.status == PendingDirector ==>
      r.status == Approved && r.medicalClearance == request.medicalClearance
    ensures !(user.role == Doctor && request.status == PendingMedical) &&
            !(user.role == Admin && request.status == PendingDirector) ==>
      r.status == request.status && r.medicalClearance == request.medicalClearance
    ensures r.(status := request.status, medicalClearance := request.medicalClearance,
               history := request.history) == request
  {
    var entry := Entry(user, now, ApproveAction, note);
    if user.role == Doctor && request.status == PendingMedical then
      request.(status := PendingDirector,
               medicalClearance := Some(MedicalClearance(user.id, now, true, Some(note), None)),
               history := request.history + [entry])
    else if user.role == Admin && request.status == PendingDirector then
      request.(status := Approved, history := request.history + [entry])
    else
      request.(history := request.history + [entry])
  }

  /** The reject handler on one record: rejected whatever the prior status. */
  function RejectedRecord(request: LeaveRequest, user: AppUser, now: string, note: string): (r: LeaveRequest)
    ensures r.status == Rejected
    ensures r.history == request.history + [Entry(user, now, RejectAction, note)]
    ensures r.(status := request.status, history := request.history) == request
  {
    request.(status := Rejected, history := request.history + [Entry(user, now, RejectAction, note)])
  }

  /** `requests.map(r => r.id === id ? updated : r)`. */
  function ReplaceById(requests: seq<LeaveRequest>, id: string, updated: LeaveRequest): (rs: seq<LeaveRequest>)
    ensures |rs| == |requests|
    ensures forall i :: 0 <= i < |rs| && requests[i].id != id ==> rs[i] == requests[i]
    ensures forall i :: 0 <= i < |rs| && requests[i].id == id ==> rs[i] == updated
  {
    if requests == [] then []
    else [if requests[0].id == id then updated else requests[0]] + ReplaceById(requests[1..], id, updated)
  }

  /** Replacing a record by its own id keeps the other records and adds nothing new. */
  lemma ReplaceByIdMembers(requests: seq<LeaveRequest>, id: string, updated: LeaveRequest)
    ensures forall r :: r in ReplaceById(requests, id, updated) ==> r == updated || r in requests
    ensures (forall r :: r in requests ==> r.id != id) ==> ReplaceById(requests, id, updated) == requests
  {
    var rs := ReplaceById(requests, id, updated);
    forall r | r in rs ensures r == updated || r in requests {
      var i :| 0 <= i < |rs| && rs[i] == r;
    }
    if forall r :: r in requests ==> r.id != id {
      assert forall i :: 0 <= i < |rs| ==> rs[i] == requests[i];
    }
  }

  /** Which requests a role's list shows. */
  predicate Visible(role: Option<AppRole>, r: LeaveRequest) {
    if role == Some(SocialWorker) then true
    else if role == Some(Doctor) then r.status == PendingMedical || r.status == Approved
    else if role == Some(Admin) then true
    else false
  }

  /** The list shown to the current user, in the stored order. */
  function VisibleRequests(role: Option<AppRole>, requests: seq<LeaveRequest>): (rs: seq<LeaveRequest>)
    ensures IsSubsequence(rs, requests)
    ensures role == Some(SocialWorker) || role == Some(Admin) ==> rs == requests
    ensures role == Some(Nurse) || role == None ==> rs == []
    ensures role == Some(Doctor) ==>
      forall r :: r in rs <==> r in requests && (r.status == PendingMedical || r.status == Approved)
  {
    var p := (r: LeaveRequest) => Visible(role, r);
    FilterIsSubsequence(p, requests);
    if role == Some(SocialWorker) || role == Some(Admin) then
      FilterAll(p, requests);
      Filter(p, requests)
    else if role == Some(Nurse) || role == None then
      FilterNone(p, requests);
      Filter(p, requests)
    else
      Filter(p, requests)
  }

  /** The doctor never sees a request waiting for the director, nor a rejected one. */
  lemma DoctorSeesNoDirectorQueue(requests: seq<LeaveRequest>)
    ensures forall r :: r in VisibleRequests(Some(Doctor), requests) ==>
      r.status != PendingDirector && r.status != Rejected
  {
  }

  /** The decision area of the details dialog is offered to exactly these pairs. */
  predicate ActionAreaOpen(role: Option<AppRole>, status: LeaveStatus) {
    (role == Some(Doctor) && status == PendingMedical) ||
    (role == Some(Admin) && status == PendingDirector)
  }

  /** The "new request" button is offered to social workers only. */
  predicate NewRequestButtonShown(role: Option<AppRole>) {
    role == Some(SocialWorker)
  }

  /** The canned infection flag the doctor's warning panel reads, by beneficiary id. */
  function InfectionFlag(beneficiaryId: string): (infected: bool)
    ensures infected <==> beneficiaryId == "2"
  {
    if beneficiaryId == "1" then false
    else if beneficiaryId == "2" then true
    else false
  }

  /** The medical warning panel shows only to the doctor on a request pending medical review. */
  predicate MedicalPanelShown(role: Option<AppRole>, status: LeaveStatus) {
    role == Some(Doctor) && status == PendingMedical
  }

  lemma MedicalPanelOnlyInDecisionArea(role: Option<AppRole>, status: LeaveStatus)
    ensures MedicalPanelShown(role, status) ==> ActionAreaOpen(role, status)
    ensures ActionAreaOpen(role, status) && role == Some(Admin) ==> !MedicalPanelShown(role, status)
  {
  }

  // ---------------------------------------------------------------------
  // The workflow as a sequence of decisions taken through the dialog.
  // ---------------------------------------------------------------------

  datatype Decision = Approve | Reject

  /** One click in the decision area: who clicks, which button, when, with which note. */
  datatype Move = Move(user: Option<AppUser>, decision: Decision, now: string, note: string)

  /** A click takes effect only when a user is present and the area is offered. */
  function Step(request: LeaveRequest, m: Move): (r: Option<LeaveRequest>)
    ensures r.Some? <==> m.user.Some? && ActionAreaOpen(Some(m.user.value.role), request.status)
    ensures r.Some? && m.decision == Approve ==> r.value == ApprovedRecord(request, m.user.value, m.now, m.note)
    ensures r.Some? && m.decision == Reject ==> r.value == RejectedRecord(request, m.user.value, m.now, m.note)
  {
    if m.user.Some? && ActionAreaOpen(Some(m.user.value.role), request.status) then
      match m.decision
      case Approve => Some(ApprovedRecord(request, m.user.value, m.now, m.note))
      case Reject => Some(RejectedRecord(request, m.user.value, m.now, m.note))
    else None
  }

  /** The states a request reaches through the dialog from medical review on. */
  predicate InWorkflow(s: LeaveStatus) {
    s == PendingMedical || s == PendingDirector || s == Approved || s == Rejected
  }

  /** Progress through the workflow: 0 medical review, 1 director, 2 decided. */
  function Rank(s: LeaveStatus): nat {
    match s
    case PendingDirector => 1
    case Approved => 2
    case Rejected => 2
    case _ => 0
  }

  /** Every accepted click moves a request strictly forward and appends exactly one entry. */
  lemma StepAdvances(request: LeaveRequest, m: Move)
    requires Step(request, m).Some?
    ensures var r := Step(request, m).value;
      InWorkflow(r.status) && Rank(r.status) > Rank(request.status) &&
      r.history == request.history + [r.history[|request.history|]] &&
      r.id == request.id && r.beneficiaryId == request.beneficiaryId
  {
  }

  /** The outcome of clicks in order: the final record and how many took effect. */
  function Run(request: LeaveRequest, moves: seq<Move>): (res: (LeaveRequest, nat))
    decreases |moves|
  {
    if moves == [] then (request, 0)
    else match Step(request, moves[0])
      case None => Run(request, moves[1..])
      case Some(next) =>
        var (fin, n) := Run(next, moves[1..]);
        (fin, n + 1)
  }

  /**
   * Whatever the clicks: a request in the workflow stays in it, the number
   * of accepted clicks never exceeds the ranks it climbed (so at most two),
   * the audit trail only grows, by one entry per accepted click, and the
   * request keeps its identity.
   */
  lemma {:induction false} RunMonotone(request: LeaveRequest, moves: seq<Move>)
    requires InWorkflow(request.status)
    ensures var (fin, n) := Run(request, moves);
      InWorkflow(fin.status) &&
      Rank(request.status) + n <= Rank(fin.status) &&
      n <= 2 &&
      request.history <= fin.history &&
      |fin.history| == |request.history| + n &&
      fin.id == request.id && fin.beneficiaryId == request.beneficiaryId
    decreases |moves|
  {
    if moves != [] {
      match Step(request, moves[0])
      case None =>
        RunMonotone(request, moves[1..]);
      case Some(next) =>
        StepAdvances(request, moves[0]);
        RunMonotone(next, moves[1..]);
    }
  }

  /** A decided request is final: no click changes it any more. */
  lemma {:induction false} DecidedIsFinal(request: LeaveRequest, moves: seq<Move>)
    requires request.status == Approved || request.status == Rejected
    ensures Run(request, moves) == (request, 0)
    decreases |moves|
  {
    if moves != [] {
      assert Step(request, moves[0]).None?;
      DecidedIsFinal(request, moves[1..]);
    }
  }

  /**
   * A request that starts at medical review and ends approved or at the
   * director has been cleared as fit by a doctor on the way.
   */
  lemma {:induction false} ApprovalNeedsClearance(request: LeaveRequest, moves: seq<Move>)
    requires request.status == PendingMedical ||
      (request.status == PendingDirector && request.medicalClearance.Some? && request.medicalClearance.value.isFit)
    ensures var fin := Run(request, moves).0;
      fin.status == PendingDirector || fin.status == Approved ==>
        fin.medicalClearance.Some? && fin.medicalClearance.value.isFit
    decreases |moves|
  {
    if moves != [] {
      match Step(request, moves[0])
      case None =>
        ApprovalNeedsClearance(request, moves[1..]);
      case Some(next) =>
        if next.status == PendingDirector {
          ApprovalNeedsClearance(next, moves[1..]);
        } else {
          DecidedIsFinal(next, moves[1..]);
        }
    }
  }

  /** Approving through the dialog succeeds exactly for the doctor at medical review and the administrator at the director stage. */
  lemma ApproveAcceptedIff(request: LeaveRequest, user: AppUser, now: string, note: string)
    ensures Step(request, Move(Some(user), Approve, now, note)).Some? <==>
      (user.role == Doctor && request.status == PendingMedical) ||
      (user.role == Admin && request.status == PendingDirector)
  {
  }

  /** Medical clearance followed by the director's rejection, from any request pending medical review. */
  lemma ClearThenReject(r0: LeaveRequest, doc: AppUser, admin: AppUser, t1: string, t2: string, note: string)
    requires r0.status == PendingMedical && |r0.history| == 1
    requires doc.role == Doctor && admin.role == Admin
    ensures var r1 := ApprovedRecord(r0, doc, t1, note);
      var r2 := RejectedRecord(r1, admin, t2, "");
      r1.status == PendingDirector &&
      r1.medicalClearance.Some? && r1.medicalClearance.value.isFit &&
      r1.medicalClearance.value.precautions == Some(note) &&
      |r1.history| == 2 &&
      r2.status == Rejected && |r2.history| == 3 &&
      Step(r2, Move(Some(admin), Approve, "later", "")).None? &&
      Step(r2, Move(Some(doc), Approve, "later", "")).None?
  {
    var r1 := ApprovedRecord(r0, doc, t1, note);
    var r2 := RejectedRecord(r1, admin, t2, "");
    ApproveAcceptedIff(r2, admin, "later", "");
    ApproveAcceptedIff(r2, doc, "later", "");
  }

  /** Filing, medical clearance, and the director's rejection, end to end. */
  lemma CreateClearRejectScenario(b: Beneficiary, sw: AppUser, doc: AppUser, admin: AppUser)
    requires sw.role == SocialWorker && doc.role == Doctor && admin.role == Admin
    ensures var r0 := NewRequest(b, InitialDraft, sw, "1", "2024-05-01T08:00:00Z");
      var r1 := ApprovedRecord(r0, doc, "2024-05-01T09:00:00Z", "fit to travel");
      var r2 := RejectedRecord(r1, admin, "2024-05-01T10:00:00Z", "");
      r0.requestDate == "2024-05-01" &&
      r1.status == PendingDirector &&
      r1.medicalClearance.Some? && r1.medicalClearance.value.isFit &&
      r1.medicalClearance.value.precautions == Some("fit to travel") &&
      |r1.history| == 2 &&
      r2.status == Rejected && |r2.history| == 3 &&
      Step(r2, Move(Some(admin), Approve, "later", "")).None? &&
      Step(r2, Move(Some(doc), Approve, "later", "")).None?
  {
    assert "2024-05-01T08:00:00Z" == "2024-05-01" + "T08:00:00Z";
    NewRequestDatedToday(b, InitialDraft, sw, "1", "2024-05-01", "T08:00:00Z");
    var r0 := NewRequest(b, InitialDraft, sw, "1", "2024-05-01T08:00:00Z");
    ClearThenReject(r0, doc, admin, "2024-05-01T09:00:00Z", "2024-05-01T10:00:00Z", "fit to travel");
  }

  /** The request the component starts with. */
  const InitialRequest: LeaveRequest := LeaveRequest(
    "LR-001", "1", "أحمد محمد", "2023-11-28", HomeVisit, "2023-12-01", "2023-12-03", 2,
    "محمد أحمد", "0500000000", "زيارة عائلية نهاية الأسبوع", PendingMedical,
    [LeaveAction("sw-1", "سارة الأحمد (أخصائية)", SocialWorker, "2023-11-28T10:00:00Z",
                 RequestAction, Some("تم التواصل مع الولي وتأكيد الموعد"))],
    None, None)

  /**
   * The component's state: the stored requests, the open dialogs, the
   * decision note and the new-request form.
   */
  class LeaveRequestBoard {
    var requests: seq<LeaveRequest>
    var isNewRequestOpen: bool
    var selectedRequest: Option<LeaveRequest>
    var actionNote: string
    var newRequestData: LeaveDraft
    var selectedBeneficiaryId: string

    constructor ()
      ensures requests == [InitialRequest]
      ensures !isNewRequestOpen && selectedRequest == None && actionNote == ""
      ensures newRequestData == InitialDraft && selectedBeneficiaryId == ""
    {
      requests := [InitialRequest];
      isNewRequestOpen := false;
      selectedRequest := None;
      actionNote := "";
      newRequestData := InitialDraft;
      selectedBeneficiaryId := "";
    }

    /** The list the current user sees. */
    function Shown(role: Option<AppRole>): (rs: seq<LeaveRequest>)
      reads this
      ensures IsSubsequence(rs, requests)
    {
      VisibleRequests(role, requests)
    }

    method OpenNewRequest()
      modifies this
      ensures isNewRequestOpen
      ensures requests == old(requests) && selectedRequest == old(selectedRequest)
      ensures actionNote == old(actionNote) && newRequestData == old(newRequestData)
      ensures selectedBeneficiaryId == old(selectedBeneficiaryId)
    {
      isNewRequestOpen := true;
    }

    method SelectBeneficiary(id: string)
      modifies this
      ensures selectedBeneficiaryId == id
      ensures requests == old(requests) && selectedRequest == old(selectedRequest)
      ensures actionNote == old(actionNote) && newRequestData == old(newRequestData)
      ensures isNewRequestOpen == old(isNewRequestOpen)
    {
      selectedBeneficiaryId := id;
    }

    method EditDraft(draft: LeaveDraft)
      modifies this
      ensures newRequestData == draft
      ensures requests == old(requests) && selectedRequest == old(selectedRequest)
      ensures actionNote == old(actionNote) && selectedBeneficiaryId == old(selectedBeneficiaryId)
      ensures isNewRequestOpen == old(isNewRequestOpen)
    {
      newRequestData := draft;
    }

    /**
     * Files a request for the selected beneficiary, newest first, and resets
     * the form. Nothing happens without a selection, without a user, or when
     * the selected id names no known beneficiary.
     */
    method CreateRequest(user: Option<AppUser>, beneficiaries: seq<Beneficiary>, stamp: string, now: string)
      modifies this
      ensures var found := FindBeneficiary(beneficiaries, old(selectedBeneficiaryId));
        if old(selectedBeneficiaryId) == "" || user.None? || found.None? then
          requests == old(requests) && isNewRequestOpen == old(isNewRequestOpen) &&
          newRequestData == old(newRequestData) && selectedBeneficiaryId == old(selectedBeneficiaryId) &&
          selectedRequest == old(selectedRequest) && actionNote == old(actionNote)
        else
          requests == [NewRequest(found.value, old(newRequestData), user.value, stamp, now)] + old(requests) &&
          !isNewRequestOpen && newRequestData == ClearedDraft && selectedBeneficiaryId == "" &&
          selectedRequest == old(selectedRequest) && actionNote == old(actionNote)
    {
      if selectedBeneficiaryId == "" || user.None? {
        return;
      }
      var found := FindBeneficiary(beneficiaries, selectedBeneficiaryId);
      if found.None? {
        return;
      }
      var r := NewRequest(found.value, newRequestData, user.value, stamp, now);
      requests := [r] + requests;
      isNewRequestOpen := false;
      newRequestData := ClearedDraft;
      selectedBeneficiaryId := "";
    }

    /** Opens the details dialog on a listed request. */
    method SelectRequest(r: LeaveRequest)
      modifies this
      ensures selectedRequest == Some(r)
      ensures requests == old(requests) && actionNote == old(actionNote)
      ensures newRequestData == old(newRequestData) && selectedBeneficiaryId == old(selectedBeneficiaryId)
      ensures isNewRequestOpen == old(isNewRequestOpen)
    {
      selectedRequest := Some(r);
    }

    method SetActionNote(note: string)
      modifies this
      ensures actionNote == note
      ensures requests == old(requests) && selectedRequest == old(selectedRequest)
      ensures newRequestData == old(newRequestData) && selectedBeneficiaryId == old(selectedBeneficiaryId)
      ensures isNewRequestOpen == old(isNewRequestOpen)
    {
      actionNote := note;
    }

    /** The approve handler: stores the approved record and closes the dialog. */
    method ApproveRequest(request: LeaveRequest, user: Option<AppUser>, now: string)
      modifies this
      ensures user.None? ==>
        requests == old(requests) && selectedRequest == old(selectedRequest) && actionNote == old(actionNote)
      ensures user.Some? ==>
        requests == ReplaceById(old(requests), request.id, ApprovedRecord(request, user.value, now, old(actionNote))) &&
        selectedRequest == None && actionNote == ""
      ensures newRequestData == old(newRequestData) && selectedBeneficiaryId == old(selectedBeneficiaryId)
      ensures isNewRequestOpen == old(isNewRequestOpen)
    {
      if user.None? {
        return;
      }
      requests := ReplaceById(requests, request.id, ApprovedRecord(request, user.value, now, actionNote));
      selectedRequest := None;
      actionNote := "";
    }

    /** The reject handler: stores the rejected record and closes the dialog. */
    method RejectRequest(request: LeaveRequest, user: Option<AppUser>, now: string)
      modifies this
      ensures user.None? ==>
        requests == old(requests) && selectedRequest == old(selectedRequest) && actionNote == old(actionNote)
      ensures user.Some? ==>
        requests == ReplaceById(old(requests), request.id, RejectedRecord(request, user.value, now, old(actionNote))) &&
        selectedRequest == None && actionNote == ""
      ensures newRequestData == old(newRequestData) && selectedBeneficiaryId == old(selectedBeneficiaryId)
      ensures isNewRequestOpen == old(isNewRequestOpen)
    {
      if user.None? {
        return;
      }
      requests := ReplaceById(requests, request.id, RejectedRecord(request, user.value, now, actionNote));
      selectedRequest := None;
      actionNote := "";
    }

    /**
     * A click on a decision button of the details dialog: the buttons exist
     * only while a request is selected and the decision area is offered to
     * the current user, and then the click is one `Step` on that request.
     */
    method Decide(user: Option<AppUser>, decision: Decision, now: string)
      modifies this
      ensures var sel := old(selectedRequest);
        if sel.Some? && user.Some? && ActionAreaOpen(Some(user.value.role), sel.value.status) then
          var next := Step(sel.value, Move(user, decision, now, old(actionNote)));
          next.Some? &&
          requests == ReplaceById(old(requests), sel.value.id, next.value) &&
          selectedRequest == None && actionNote == ""
        else
          requests == old(requests) && selectedRequest == old(selectedRequest) && actionNote == old(actionNote)
      ensures newRequestData == old(newRequestData) && selectedBeneficiaryId == old(selectedBeneficiaryId)
      ensures isNewRequestOpen == old(isNewRequestOpen)
    {
      if selectedRequest.Some? && user.Some? && ActionAreaOpen(Some(user.value.role), selectedRequest.value.status) {
        match decision
        case Approve => ApproveRequest(selectedRequest.value, user, now);
        case Reject => RejectRequest(selectedRequest.value, user, now);
      }
    }
  }
}
