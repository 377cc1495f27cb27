// The top-level screen of the application: the lists of saved forms, the
// visit log, the clothing inventory and requests, the medical profiles, and
// the flags that open and close each form.

module AppState {
  import opened Common
  import opened Records
  import opened MedicalTypes

  /** The forms that are saved by appending and close their modal on save. */
  datatype FormKind =
    | CaseStudyForm | SocialResearchForm | RehabilitationPlanForm | MedicalExamForm
    | EducationalPlanForm | InjuryReportForm | FamilyCaseStudyForm | TrainingReferralForm
    | TrainingFollowUpForm | VocationalEvalForm | FamilyGuidanceReferralForm | PostCareFollowUpForm

  /** The social-activity lists, appended to without any modal. */
  datatype ActivityKind = ActivityPlan | ActivityDocumentation | ActivityFollowUp

  const AllForms: seq<FormKind> := [
    CaseStudyForm, SocialResearchForm, RehabilitationPlanForm, MedicalExamForm,
    EducationalPlanForm, InjuryReportForm, FamilyCaseStudyForm, TrainingReferralForm,
    TrainingFollowUpForm, VocationalEvalForm, FamilyGuidanceReferralForm, PostCareFollowUpForm]

  const AllActivities: seq<ActivityKind> := [ActivityPlan, ActivityDocumentation, ActivityFollowUp]

  lemma ActivityListed(a: ActivityKind)
    ensures a in AllActivities
  {
    match a
    case ActivityPlan =>
    case ActivityDocumentation =>
    case ActivityFollowUp =>
  }

  lemma FormListed(k: FormKind)
    ensures k in AllForms
  {
    match k
    case CaseStudyForm =>
    case SocialResearchForm =>
    case RehabilitationPlanForm =>
    case MedicalExamForm =>
    case EducationalPlanForm =>
    case InjuryReportForm =>
    case FamilyCaseStudyForm =>
    case TrainingReferralForm =>
    case TrainingFollowUpForm =>
    case VocationalEvalForm =>
    case FamilyGuidanceReferralForm =>
    case PostCareFollowUpForm =>
  }

  /** A saved form, visit log or activity record; its content is not interpreted. */
  datatype FormRecord = FormRecord(id: string, beneficiaryId: string)

  // ---------------------------------------------------------------------
  // The inventory update of a clothing request

  function ForItem(id: string): ClothingRequestItem -> bool {
    (ri: ClothingRequestItem) => ri.itemId == id
  }

  /** The first line of the request naming the item. */
  function RequestedLine(items: seq<ClothingRequestItem>, id: string): Option<ClothingRequestItem> {
    Find(ForItem(id), items)
  }

  function Max(a: int, b: int): int {
    if a >= b then a else b
  }

  /**
   * Each stock item named by the request loses the quantity of the first
   * line naming it, never going below zero; every other item and the order,
   * ids and number of items stay as they were.
   */
  function DecrementInventory(inventory: seq<InventoryItem>, request: ClothingRequest): (r: seq<InventoryItem>)
    ensures |r| == |inventory|
    ensures forall k :: 0 <= k < |r| ==> r[k].id == inventory[k].id
    ensures forall k :: 0 <= k < |r| ==>
      match RequestedLine(request.items, inventory[k].id)
      case None => r[k] == inventory[k]
      case Some(line) => r[k] == inventory[k].(quantity := Max(0, inventory[k].quantity - line.quantity))
  {
    seq(|inventory|, k requires 0 <= k < |inventory| =>
      match RequestedLine(request.items, inventory[k].id)
      case None => inventory[k]
      case Some(line) => inventory[k].(quantity := Max(0, inventory[k].quantity - line.quantity)))
  }

  /** A requested item never ends below zero. */
  lemma RequestedNeverNegative(inventory: seq<InventoryItem>, request: ClothingRequest, k: int)
    requires 0 <= k < |inventory|
    requires RequestedLine(request.items, inventory[k].id).Some?
    ensures DecrementInventory(inventory, request)[k].quantity >= 0
  {
  }

  /**
   * When the item is named by several lines, the first of them is the one
   * applied, whatever the later ones ask for.
   */
  lemma FirstLineApplies(inventory: seq<InventoryItem>, request: ClothingRequest, k: int, i: int)
    requires 0 <= k < |inventory|
    requires FirstAt(ForItem(inventory[k].id), request.items, i)
    ensures DecrementInventory(inventory, request)[k].quantity
         == Max(0, inventory[k].quantity - request.items[i].quantity)
  {
    var line := RequestedLine(request.items, inventory[k].id);
    var j :| FirstAt(ForItem(inventory[k].id), request.items, j) && request.items[j] == line.value;
    FirstAtUnique(ForItem(inventory[k].id), request.items, i, j);
  }

  lemma FirstAtUnique<T>(p: T -> bool, s: seq<T>, i: int, j: int)
    requires FirstAt(p, s, i) && FirstAt(p, s, j)
    ensures i == j
  {
  }

  /**
   * With non-negative stock and request quantities, a request only ever
   * lowers stock, and never below zero.
   */
  lemma DecrementBounded(inventory: seq<InventoryItem>, request: ClothingRequest)
    requires forall k :: 0 <= k < |inventory| ==> inventory[k].quantity >= 0
    requires forall i :: 0 <= i < |request.items| ==> request.items[i].quantity >= 0
    ensures forall k :: 0 <= k < |inventory| ==>
      0 <= DecrementInventory(inventory, request)[k].quantity <= inventory[k].quantity
  {
    var r := DecrementInventory(inventory, request);
    forall k | 0 <= k < |inventory|
      ensures 0 <= r[k].quantity <= inventory[k].quantity
    {
      var line := RequestedLine(request.items, inventory[k].id);
      if line.Some? {
        var i :| FirstAt(ForItem(inventory[k].id), request.items, i) && request.items[i] == line.value;
      }
    }
  }

  /** A request that names no stock item leaves the inventory as it is. */
  lemma UnrelatedRequestKeepsInventory(inventory: seq<InventoryItem>, request: ClothingRequest)
    requires forall i, k :: 0 <= i < |request.items| && 0 <= k < |inventory| ==>
      request.items[i].itemId != inventory[k].id
    ensures DecrementInventory(inventory, request) == inventory
  {
    var r := DecrementInventory(inventory, request);
    forall k | 0 <= k < |inventory|
      ensures r[k] == inventory[k]
    {
      assert forall x :: x in request.items ==> !ForItem(inventory[k].id)(x);
    }
  }

  // ---------------------------------------------------------------------
  // The screen's state

  /** All state cells of the screen as one value. */
  datatype Snapshot = Snapshot(
    records: map<FormKind, seq<FormRecord>>,
    creating: map<FormKind, bool>,
    activities: map<ActivityKind, seq<FormRecord>>,
    visitLogs: seq<FormRecord>,
    inventory: seq<InventoryItem>,
    clothingRequests: seq<ClothingRequest>,
    isCreatingClothingRequest: bool,
    medicalProfiles: seq<MedicalProfile>,
    isCreatingMedicalProfile: bool,
    selectedBeneficiary: Option<Beneficiary>)

  class App {
    var records: map<FormKind, seq<FormRecord>>
    var creating: map<FormKind, bool>
    var activities: map<ActivityKind, seq<FormRecord>>
    var visitLogs: seq<FormRecord>
    var inventory: seq<InventoryItem>
    var clothingRequests: seq<ClothingRequest>
    var isCreatingClothingRequest: bool
    var medicalProfiles: seq<MedicalProfile>
    var isCreatingMedicalProfile: bool
    var selectedBeneficiary: Option<Beneficiary>

    function State(): Snapshot
      reads this
    {
      Snapshot(records, creating, activities, visitLogs, inventory, clothingRequests,
               isCreatingClothingRequest, medicalProfiles, isCreatingMedicalProfile, selectedBeneficiary)
    }

    /** Every form and activity kind has its list and its flag. */
    predicate Valid()
      reads this
    {
      (forall k: FormKind :: k in records && k in creating) &&
      (forall a: ActivityKind :: a in activities)
    }

    /** Empty lists and closed forms; the visit log and stock start from the given data. */
    constructor (initialVisitLogs: seq<FormRecord>, initialInventory: seq<InventoryItem>)
      ensures Valid()
      ensures forall k: FormKind :: records[k] == [] && !creating[k]
      ensures forall a: ActivityKind :: activities[a] == []
      ensures visitLogs == initialVisitLogs && inventory == initialInventory
      ensures clothingRequests == [] && !isCreatingClothingRequest
      ensures medicalProfiles == [] && !isCreatingMedicalProfile && selectedBeneficiary.None?
    {
      records := map k | k in AllForms :: [];
      creating := map k | k in AllForms :: false;
      activities := map a | a in AllActivities :: [];
      visitLogs := initialVisitLogs;
      inventory := initialInventory;
      clothingRequests := [];
      isCreatingClothingRequest := false;
      medicalProfiles := [];
      isCreatingMedicalProfile := false;
      selectedBeneficiary := None;
      forall k: FormKind
        ensures k in AllForms
      {
        FormListed(k);
      }
      forall a: ActivityKind
        ensures a in AllActivities
      {
        ActivityListed(a);
      }
    }

    method SelectBeneficiary(b: Beneficiary)
      modifies this
      ensures State() == old(State()).(selectedBeneficiary := Some(b))
    {
      selectedBeneficiary := Some(b);
    }

    /** Opens a form's modal. */
    method StartForm(k: FormKind)
      requires Valid()
      modifies this
      ensures Valid()
      ensures State() == old(State()).(creating := old(creating)[k := true])
    {
      creating := creating[k := true];
    }

    /** Closes a form's modal without saving. */
    method CancelForm(k: FormKind)
      requires Valid()
      modifies this
      ensures Valid()
      ensures State() == old(State()).(creating := old(creating)[k := false])
    {
      creating := creating[k := false];
    }

    /** Appends the saved form to its list and closes its modal. */
    method SaveForm(k: FormKind, r: FormRecord)
      requires Valid()
      modifies this
      ensures Valid()
      ensures records[k] == old(records[k]) + [r] && !creating[k]
      ensures State() == old(State()).(records := old(records)[k := old(records[k]) + [r]],
                                       creating := old(creating)[k := false])
    {
      records := records[k := records[k] + [r]];
      creating := creating[k := false];
    }

    /** Appends a social-activity record; no modal is involved. */
    method AddActivity(a: ActivityKind, r: FormRecord)
      requires Valid()
      modifies this
      ensures Valid()
      ensures activities[a] == old(activities[a]) + [r]
      ensures State() == old(State()).(activities := old(activities)[a := old(activities[a]) + [r]])
    {
      activities := activities[a := activities[a] + [r]];
    }

    /** A visit log goes to the front: the newest log is listed first. */
    method AddVisitLog(r: FormRecord)
      modifies this
      ensures visitLogs == [r] + old(visitLogs)
      ensures State() == old(State()).(visitLogs := [r] + old(visitLogs))
    {
      visitLogs := [r] + visitLogs;
    }

    method StartClothingRequest()
      modifies this
      ensures State() == old(State()).(isCreatingClothingRequest := true)
    {
      isCreatingClothingRequest := true;
    }

    method CancelClothingRequest()
      modifies this
      ensures State() == old(State()).(isCreatingClothingRequest := false)
    {
      isCreatingClothingRequest := false;
    }

    /** Records the request, takes its items out of stock and closes the form. */
    method SaveClothingRequest(request: ClothingRequest)
      modifies this
      ensures clothingRequests == old(clothingRequests) + [request]
      ensures inventory == DecrementInventory(old(inventory), request)
      ensures State() == old(State()).(clothingRequests := old(clothingRequests) + [request],
                                       inventory := DecrementInventory(old(inventory), request),
                                       isCreatingClothingRequest := false)
    {
      clothingRequests := clothingRequests + [request];
      var updated := DecrementInventory(inventory, request);
      inventory := updated;
      isCreatingClothingRequest := false;
    }

    method StartMedicalProfile()
      modifies this
      ensures State() == old(State()).(isCreatingMedicalProfile := true)
    {
      isCreatingMedicalProfile := true;
    }

    method CancelMedicalProfile()
      modifies this
      ensures State() == old(State()).(isCreatingMedicalProfile := false)
    {
      isCreatingMedicalProfile := false;
    }

    /** Appends the admission form's profile and closes the admission modal. */
    method SaveMedicalProfile(profile: MedicalProfile)
      modifies this
      ensures medicalProfiles == old(medicalProfiles) + [profile]
      ensures State() == old(State()).(medicalProfiles := old(medicalProfiles) + [profile],
                                       isCreatingMedicalProfile := false)
    {
      medicalProfiles := medicalProfiles + [profile];
      isCreatingMedicalProfile := false;
    }
  }
}
