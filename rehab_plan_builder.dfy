/**
 * The rehabilitation plan builder: rule-based goal suggestions from the
 * beneficiary's record, goal editing keyed by id, and the three sign-offs
 * with the director's final approval gated on the other two.
 */
module RehabPlanBuilder {
  import opened Common
  import opened Records
  import opened UserContext
  import opened RehabTypes

  datatype ToastKind = Success | Error | Info

  /** A transient message shown to the user. */
  datatype Toast = Toast(message: string, kind: ToastKind)

  // ---------------------------------------------------------------------
  // Suggestions

  datatype Suggestion = Suggestion(goalType: GoalType, title: string, reason: string)

  /** The four rules, in declaration order. */
  datatype Rule = MobilityRule | SpeechRule | DeviceRule | EducationRule

  const RuleOrder: seq<Rule> := [MobilityRule, SpeechRule, DeviceRule, EducationRule]

  predicate Fires(rule: Rule, b: Beneficiary) {
    match rule
    case MobilityRule => Includes(b.medicalDiagnosis, "Cerebral Palsy") || Includes(b.medicalDiagnosis, "شلل")
    case SpeechRule => Includes(b.medicalDiagnosis, "Speech") || Includes(b.medicalDiagnosis, "نطق")
    case DeviceRule => b.socialStatus == "Low Income" || Includes(b.notes, "دخل محدود")
    case EducationRule => b.age < 18
  }

  const MobilityTitle: string := "تحسين المدى الحركي (ROM)"
  const MobilityReason: string := "بناءً على التشخيص الطبي: شلل/إعاقة حركية"
  const SpeechTitle: string := "جلسات تخاطب مكثفة"
  const SpeechReason: string := "بناءً على التشخيص الطبي: صعوبات نطق"
  const DeviceTitle: string := "دراسة طلب أجهزة تعويضية"
  const DeviceReason: string := "دمج البيانات: دخل محدود + احتياج محتمل"
  const EducationTitle: string := "دمج في برامج التعليم الخاص"
  const EducationReason: string := "السن يسمح بالدمج التعليمي"

  function SuggestionOf(rule: Rule): (s: Suggestion)
    ensures rule == MobilityRule ==> s.goalType == Physiotherapy
    ensures rule == SpeechRule ==> s.goalType == Medical
    ensures rule == DeviceRule || rule == EducationRule ==> s.goalType == Social
  {
    match rule
    case MobilityRule => Suggestion(Physiotherapy, MobilityTitle, MobilityReason)
    case SpeechRule => Suggestion(Medical, SpeechTitle, SpeechReason)
    case DeviceRule => Suggestion(Social, DeviceTitle, DeviceReason)
    case EducationRule => Suggestion(Social, EducationTitle, EducationReason)
  }

  /** Distinct rules suggest distinct goals. */
  lemma SuggestionOfInjective(r1: Rule, r2: Rule)
    ensures SuggestionOf(r1) == SuggestionOf(r2) ==> r1 == r2
  {
    if r1 != r2 {
      assert SuggestionOf(r1).title != SuggestionOf(r2).title || SuggestionOf(r1).goalType != SuggestionOf(r2).goalType;
    }
  }

  /** The rules that fire for one beneficiary, as a test on rules. */
  function FiresFor(b: Beneficiary): Rule -> bool {
    (r: Rule) => Fires(r, b)
  }

  /** The suggestions of the rules that fire, in the order the rules are listed. */
  function FiredAmong(fires: Rule -> bool, rules: seq<Rule>): seq<Suggestion> {
    if rules == [] then []
    else if fires(rules[0]) then [SuggestionOf(rules[0])] + FiredAmong(fires, rules[1..])
    else FiredAmong(fires, rules[1..])
  }

  /**
   * At most one suggestion per rule, exactly the suggestions of the rules
   * that fire, and in the rules' order.
   */
  lemma {:induction false} FiredAmongSpec(fires: Rule -> bool, rules: seq<Rule>)
    ensures var s := FiredAmong(fires, rules);
      |s| <= |rules| &&
      (forall x :: x in s <==> exists r :: r in rules && fires(r) && SuggestionOf(r) == x) &&
      IsSubsequence(s, Suggestions(rules))
  {
    if rules != [] {
      FiredAmongSpec(fires, rules[1..]);
      var rest := FiredAmong(fires, rules[1..]);
      assert Suggestions(rules)[1..] == Suggestions(rules[1..]);
      if fires(rules[0]) {
        assert forall x :: x in [SuggestionOf(rules[0])] + rest <==> x == SuggestionOf(rules[0]) || x in rest;
      } else {
        SkipHead(rest, Suggestions(rules));
      }
    }
  }

  function Suggestions(rules: seq<Rule>): (s: seq<Suggestion>)
    ensures |s| == |rules|
    ensures forall i :: 0 <= i < |rules| ==> s[i] == SuggestionOf(rules[i])
  {
    if rules == [] then [] else [SuggestionOf(rules[0])] + Suggestions(rules[1..])
  }

  lemma SkipHead<T>(r: seq<T>, s: seq<T>)
    requires s != [] && IsSubsequence(r, s[1..])
    ensures IsSubsequence(r, s)
  {
  }

  /** What the suggestion panel lists for the selected beneficiary, if any. */
  function Fired(b: Option<Beneficiary>): seq<Suggestion> {
    if b.None? then [] else FiredAmong(FiresFor(b.value), RuleOrder)
  }

  /**
   * The suggestion hook: pushes one suggestion per rule that fires,
   * checking the rules one after the other.
   */
  method SmartSuggestions(beneficiary: Option<Beneficiary>) returns (suggestions: seq<Suggestion>)
    ensures suggestions == Fired(beneficiary)
  {
    suggestions := [];
    if beneficiary.None? {
      return;
    }
    var b := beneficiary.value;
    ghost var fires := FiresFor(b);
    RuleConditions(b);
    ghost var before := suggestions;
    if Includes(b.medicalDiagnosis, "Cerebral Palsy") || Includes(b.medicalDiagnosis, "شلل") {
      suggestions := suggestions + [SuggestionOf(MobilityRule)];
    }
    ContributionStep(fires, MobilityRule, before, suggestions);
    before := suggestions;
    if Includes(b.medicalDiagnosis, "Speech") || Includes(b.medicalDiagnosis, "نطق") {
      suggestions := suggestions + [SuggestionOf(SpeechRule)];
    }
    ContributionStep(fires, SpeechRule, before, suggestions);
    before := suggestions;
    if b.socialStatus == "Low Income" || Includes(b.notes, "دخل محدود") {
      suggestions := suggestions + [SuggestionOf(DeviceRule)];
    }
    ContributionStep(fires, DeviceRule, before, suggestions);
    before := suggestions;
    if b.age < 18 {
      suggestions := suggestions + [SuggestionOf(EducationRule)];
    }
    ContributionStep(fires, EducationRule, before, suggestions);
    ghost var c1, c2, c3, c4 := Contribution(fires, MobilityRule), Contribution(fires, SpeechRule),
                                Contribution(fires, DeviceRule), Contribution(fires, EducationRule);
    assert [] + c1 == c1;
    assert suggestions == c1 + c2 + c3 + c4;
    FiredUnrolled(fires);
    assert Fired(beneficiary) == FiredAmong(fires, RuleOrder);
  }

  /** The suggestion one rule contributes. */
  function Contribution(fires: Rule -> bool, rule: Rule): seq<Suggestion> {
    if fires(rule) then [SuggestionOf(rule)] else []
  }

  /** The conditions the hook tests, rule by rule. */
  lemma RuleConditions(b: Beneficiary)
    ensures FiresFor(b)(MobilityRule) == (Includes(b.medicalDiagnosis, "Cerebral Palsy") || Includes(b.medicalDiagnosis, "شلل"))
    ensures FiresFor(b)(SpeechRule) == (Includes(b.medicalDiagnosis, "Speech") || Includes(b.medicalDiagnosis, "نطق"))
    ensures FiresFor(b)(DeviceRule) == (b.socialStatus == "Low Income" || Includes(b.notes, "دخل محدود"))
    ensures FiresFor(b)(EducationRule) == (b.age < 18)
  {
  }

  /** One rule's step of the hook appends that rule's contribution. */
  lemma ContributionStep(fires: Rule -> bool, rule: Rule, before: seq<Suggestion>, after: seq<Suggestion>)
    requires fires(rule) ==> after == before + [SuggestionOf(rule)]
    requires !fires(rule) ==> after == before
    ensures after == before + Contribution(fires, rule)
  {
  }

  lemma FiredCons(fires: Rule -> bool, rules: seq<Rule>)
    requires rules != []
    ensures FiredAmong(fires, rules) == Contribution(fires, rules[0]) + FiredAmong(fires, rules[1..])
  {
    var rest := FiredAmong(fires, rules[1..]);
    if fires(rules[0]) {
      assert FiredAmong(fires, rules) == [SuggestionOf(rules[0])] + rest;
    } else {
      assert FiredAmong(fires, rules) == rest;
      assert Contribution(fires, rules[0]) + rest == rest;
    }
  }

  /** Any four rules in a row contribute one after the other. */
  lemma FiredFour(fires: Rule -> bool, q0: Rule, q1: Rule, q2: Rule, q3: Rule)
    ensures FiredAmong(fires, [q0, q1, q2, q3]) ==
      Contribution(fires, q0) + (Contribution(fires, q1) + (Contribution(fires, q2) + Contribution(fires, q3)))
  {
    var c1, c2, c3, c4 := Contribution(fires, q0), Contribution(fires, q1), Contribution(fires, q2), Contribution(fires, q3);
    var s0: seq<Rule> := [q0, q1, q2, q3];
    var s1: seq<Rule> := [q1, q2, q3];
    var s2: seq<Rule> := [q2, q3];
    var s3: seq<Rule> := [q3];
    assert FiredAmong(fires, s3) == c4 by {
      FiredCons(fires, s3);
      assert s3[1..] == [];
    }
    assert FiredAmong(fires, s2) == c3 + c4 by {
      FiredCons(fires, s2);
      assert s2[1..] == s3;
    }
    assert FiredAmong(fires, s1) == c2 + (c3 + c4) by {
      FiredCons(fires, s1);
      assert s1[1..] == s2;
    }
    assert FiredAmong(fires, s0) == c1 + (c2 + (c3 + c4)) by {
      FiredCons(fires, s0);
      assert s0[1..] == s1;
    }
  }

  /** The four rules contribute one after the other, in their order. */
  lemma FiredUnrolled(fires: Rule -> bool)
    ensures FiredAmong(fires, RuleOrder) ==
      Contribution(fires, MobilityRule) + Contribution(fires, SpeechRule) +
      Contribution(fires, DeviceRule) + Contribution(fires, EducationRule)
  {
    FiredFour(fires, MobilityRule, SpeechRule, DeviceRule, EducationRule);
    AppendAssoc4(Contribution(fires, MobilityRule), Contribution(fires, SpeechRule),
                 Contribution(fires, DeviceRule), Contribution(fires, EducationRule));
  }

  lemma AppendAssoc4<T>(a: seq<T>, b: seq<T>, c: seq<T>, d: seq<T>)
    ensures a + (b + (c + d)) == a + b + c + d
  {
  }

  /** No beneficiary, no suggestions; otherwise at most one per rule, in rule order. */
  lemma SuggestionsBounded(b: Option<Beneficiary>)
    ensures b.None? ==> Fired(b) == []
    ensures |Fired(b)| <= 4
    ensures IsSubsequence(Fired(b), Suggestions(RuleOrder))
  {
    if b.None? {
      assert Fired(b) == [];
      assert IsSubsequence([], Suggestions(RuleOrder));
    } else {
      FiredAmongSpec(FiresFor(b.value), RuleOrder);
    }
  }

  /** Each rule's suggestion is listed exactly when that rule fires, whatever the others do. */
  lemma SuggestedIffFires(b: Beneficiary, rule: Rule)
    ensures SuggestionOf(rule) in Fired(Some(b)) <==> Fires(rule, b)
  {
    var fires := FiresFor(b);
    FiredAmongSpec(fires, RuleOrder);
    if SuggestionOf(rule) in Fired(Some(b)) {
      var r :| r in RuleOrder && fires(r) && SuggestionOf(r) == SuggestionOf(rule);
      SuggestionOfInjective(r, rule);
    } else {
      assert rule in RuleOrder;
      assert fires(rule) == Fires(rule, b);
    }
  }

  // ---------------------------------------------------------------------
  // The plan being edited

  /** The builder's partial plan: the fields the selection fills in are optional. */
  datatype PlanState = PlanState(
    beneficiaryId: Option<string>,
    beneficiaryName: Option<string>,
    medicalContext: Option<MedicalContext>,
    socialContext: Option<SocialContext>,
    goals: seq<SmartGoal>,
    approvals: seq<PlanApproval>,
    status: PlanStatus)

  function PendingApproval(role: ApprovalRole): PlanApproval {
    PlanApproval(role, ApprovalPending, None, None, None)
  }

  const InitialPlan: PlanState := PlanState(None, None, None, None, [],
    [PendingApproval(ByDoctor), PendingApproval(BySocialWorker), PendingApproval(ByDirector)],
    PlanDraft)

  lemma InitialPlanShape()
    ensures InitialPlan.status == PlanDraft && InitialPlan.goals == []
    ensures |InitialPlan.approvals| == 3
    ensures forall a :: a in InitialPlan.approvals ==> a.status == ApprovalPending
    ensures InitialPlan.approvals[0].role == ByDoctor
    ensures InitialPlan.approvals[1].role == BySocialWorker
    ensures InitialPlan.approvals[2].role == ByDirector
    ensures DirectorDisabled(InitialPlan.approvals)
  {
    assert InitialPlan.approvals[0].role != ByDirector;
  }

  /** Loading the selected beneficiary's context: the goals start over. */
  function WithContext(plan: PlanState, b: Beneficiary): (p: PlanState)
    ensures p.beneficiaryId == Some(b.id) && p.beneficiaryName == Some(b.fullName)
    ensures p.medicalContext == Some(MedicalContext(b.medicalDiagnosis, []))
    ensures p.socialContext == Some(SocialContext(b.socialStatus, MediumRisk))
    ensures p.goals == []
    ensures p.approvals == plan.approvals && p.status == plan.status
  {
    plan.(beneficiaryId := Some(b.id), beneficiaryName := Some(b.fullName),
          medicalContext := Some(MedicalContext(b.medicalDiagnosis, [])),
          socialContext := Some(SocialContext(b.socialStatus, MediumRisk)),
          goals := [])
  }

  /** The goal a click on "add" creates, manual or from a suggestion. */
  function NewGoal(suggestion: Option<(GoalType, string)>, stamp: string, userName: string): (g: SmartGoal)
    ensures g.id == "goal-" + stamp
    ensures g.progress == 0 && g.status == GoalPending
    ensures g.measureOfSuccess == "" && g.targetDate == "" && g.description.None?
    ensures suggestion.None? ==> g.goalType == Medical && g.title == ""
    ensures suggestion.Some? ==> g.goalType == suggestion.value.0 && g.title == suggestion.value.1
    ensures g.assignedTo == (if userName == "" then "Unassigned" else userName)
  {
    SmartGoal("goal-" + stamp,
      if suggestion.Some? then suggestion.value.0 else Medical,
      if suggestion.Some? then suggestion.value.1 else "",
      None, "", "", 0, GoalPending,
      if userName == "" then "Unassigned" else userName)
  }

  /** The fields the goal editor changes; an absent field is left as it was. */
  datatype GoalPatch = GoalPatch(
    goalType: Option<GoalType>,
    title: Option<string>,
    measureOfSuccess: Option<string>,
    progress: Option<int>)

  /** `{ ...goal, ...patch }`. */
  function Patched(g: SmartGoal, p: GoalPatch): (r: SmartGoal)
    ensures r.id == g.id && r.description == g.description && r.targetDate == g.targetDate
    ensures r.status == g.status && r.assignedTo == g.assignedTo
    ensures r.goalType == p.goalType.GetOr(g.goalType) && r.title == p.title.GetOr(g.title)
    ensures r.measureOfSuccess == p.measureOfSuccess.GetOr(g.measureOfSuccess)
    ensures r.progress == p.progress.GetOr(g.progress)
  {
    g.(goalType := p.goalType.GetOr(g.goalType), title := p.title.GetOr(g.title),
       measureOfSuccess := p.measureOfSuccess.GetOr(g.measureOfSuccess),
       progress := p.progress.GetOr(g.progress))
  }

  /** `goals.map(g => g.id === id ? { ...g, ...patch } : g)`. */
  function UpdateGoals(goals: seq<SmartGoal>, id: string, p: GoalPatch): (r: seq<SmartGoal>)
    ensures |r| == |goals|
    ensures forall i :: 0 <= i < |r| && goals[i].id == id ==> r[i] == Patched(goals[i], p)
    ensures forall i :: 0 <= i < |r| && goals[i].id != id ==> r[i] == goals[i]
    ensures forall i :: 0 <= i < |r| ==> r[i].id == goals[i].id
  {
    if goals == [] then []
    else [if goals[0].id == id then Patched(goals[0], p) else goals[0]] + UpdateGoals(goals[1..], id, p)
  }

  /** `goals.filter(g => g.id !== id)`. */
  function RemoveGoals(goals: seq<SmartGoal>, id: string): (r: seq<SmartGoal>)
    ensures forall g :: g in r ==> g in goals && g.id != id
    ensures forall g :: g in goals && g.id != id ==> g in r
    ensures IsSubsequence(r, goals)
  {
    FilterIsSubsequence((g: SmartGoal) => g.id != id, goals);
    Filter((g: SmartGoal) => g.id != id, goals)
  }

  /** Removing a goal forgets any edit made to it, and touches nothing else. */
  lemma {:induction false} RemoveAfterUpdate(goals: seq<SmartGoal>, id: string, p: GoalPatch)
    ensures RemoveGoals(UpdateGoals(goals, id, p), id) == RemoveGoals(goals, id)
  {
    if goals != [] {
      var u := UpdateGoals(goals, id, p);
      assert u == [u[0]] + UpdateGoals(goals[1..], id, p);
      assert goals == [goals[0]] + goals[1..];
      FilterAppend((g: SmartGoal) => g.id != id, [u[0]], UpdateGoals(goals[1..], id, p));
      FilterAppend((g: SmartGoal) => g.id != id, [goals[0]], goals[1..]);
      RemoveAfterUpdate(goals[1..], id, p);
      if goals[0].id == id {
        assert Filter((g: SmartGoal) => g.id != id, [u[0]]) == [];
        assert Filter((g: SmartGoal) => g.id != id, [goals[0]]) == [];
      } else {
        assert u[0] == goals[0];
      }
    }
  }

  /** Adding a goal with a fresh id and removing it again gives the goals back. */
  lemma RemoveFreshGoal(goals: seq<SmartGoal>, g: SmartGoal)
    requires forall x :: x in goals ==> x.id != g.id
    ensures RemoveGoals(goals + [g], g.id) == goals
  {
    FilterAppend((x: SmartGoal) => x.id != g.id, goals, [g]);
    FilterAll((x: SmartGoal) => x.id != g.id, goals);
    assert Filter((x: SmartGoal) => x.id != g.id, [g]) == [];
  }

  // ---------------------------------------------------------------------
  // Sign-offs

  function AsUserRole(r: ApprovalRole): UserRole {
    match r
    case ByDoctor => Doctor
    case BySocialWorker => SocialWorker
    case ByDirector => Director
  }

  function RoleName(r: ApprovalRole): string {
    match r
    case ByDoctor => "doctor"
    case BySocialWorker => "social_worker"
    case ByDirector => "director"
  }

  /** The approve handler's check: the holder of that role, or the administrator. */
  predicate Permitted(current: UserRole, role: ApprovalRole) {
    HasPermission(OneRole(AsUserRole(role)), current) || current == Admin
  }

  lemma PermittedIff(current: UserRole, role: ApprovalRole)
    ensures Permitted(current, role) <==> current == AsUserRole(role) || current == Admin
    ensures current == Nurse ==> !Permitted(current, role)
  {
  }

  /** Marks every sign-off of `role` approved by `name` at `now`. */
  function ApproveRole(approvals: seq<PlanApproval>, role: ApprovalRole, name: string, now: string): (r: seq<PlanApproval>)
    ensures |r| == |approvals|
    ensures forall i :: 0 <= i < |r| ==> r[i].role == approvals[i].role && r[i].notes == approvals[i].notes
    ensures forall i :: 0 <= i < |r| && approvals[i].role == role ==>
      r[i].status == ApprovalApproved && r[i].approvedBy == Some(name) && r[i].approvedAt == Some(now)
    ensures forall i :: 0 <= i < |r| && approvals[i].role != role ==> r[i] == approvals[i]
  {
    if approvals == [] then []
    else
      var a := approvals[0];
      [if a.role == role then a.(status := ApprovalApproved, approvedBy := Some(name), approvedAt := Some(now)) else a]
        + ApproveRole(approvals[1..], role, name, now)
  }

  /** The final-approval button is disabled while another sign-off is outstanding. */
  predicate DirectorDisabled(approvals: seq<PlanApproval>) {
    exists a :: a in approvals && a.role != ByDirector && a.status != ApprovalApproved
  }

  /** An approved row shows who approved it instead of a button. */
  predicate ButtonShown(a: PlanApproval) {
    a.status != ApprovalApproved
  }

  /** The button of row `i` can be clicked. */
  predicate ButtonEnabled(approvals: seq<PlanApproval>, i: int)
    requires 0 <= i < |approvals|
  {
    ButtonShown(approvals[i]) && !(approvals[i].role == ByDirector && DirectorDisabled(approvals))
  }

  /** The director's row is clickable only once every other sign-off is in. */
  lemma DirectorButtonNeedsTeam(approvals: seq<PlanApproval>, i: int)
    requires 0 <= i < |approvals| && approvals[i].role == ByDirector && ButtonEnabled(approvals, i)
    ensures forall a :: a in approvals && a.role != ByDirector ==> a.status == ApprovalApproved
  {
  }

  /**
   * The governance rule: once the director's row is signed, every other row
   * is signed as well.
   */
  predicate GateHolds(approvals: seq<PlanApproval>) {
    forall i, j ::
      0 <= i < |approvals| && 0 <= j < |approvals| &&
      approvals[i].role == ByDirector && approvals[i].status == ApprovalApproved && approvals[j].role != ByDirector
      ==> approvals[j].status == ApprovalApproved
  }

  /** A fresh plan has no signed row, so it meets the governance rule. */
  lemma InitialPlanKeepsGate()
    ensures GateHolds(InitialPlan.approvals)
  {
    InitialPlanShape();
  }

  /** Signing through an enabled button keeps the governance rule. */
  lemma EnabledPressKeepsGate(approvals: seq<PlanApproval>, i: int, name: string, now: string)
    requires 0 <= i < |approvals| && GateHolds(approvals) && ButtonEnabled(approvals, i)
    ensures GateHolds(ApproveRole(approvals, approvals[i].role, name, now))
  {
    var role := approvals[i].role;
    var r := ApproveRole(approvals, role, name, now);
    if role == ByDirector {
      // the enabled button means every other row is already signed
      forall y | 0 <= y < |r| && r[y].role != ByDirector
        ensures r[y].status == ApprovalApproved
      {
        assert r[y] == approvals[y] && approvals[y] in approvals;
      }
    } else {
      // row i is still open, so no director row can have been signed
      forall x | 0 <= x < |r| && r[x].role == ByDirector
        ensures r[x].status != ApprovalApproved
      {
        assert r[x] == approvals[x];
      }
    }
  }

  /**
   * The approve handler itself does not check the order: a director signing
   * the sample plan directly, before the social worker, breaks the rule that
   * the disabled button keeps.
   */
  lemma UnguardedApproveBreaksGate()
    ensures GateHolds(SamplePlanTwo.approvals)
    ensures Permitted(Director, ByDirector) && !ButtonEnabled(SamplePlanTwo.approvals, 2)
    ensures !GateHolds(ApproveRole(SamplePlanTwo.approvals, ByDirector, DirectorName, "t1"))
  {
    var ap := SamplePlanTwo.approvals;
    SamplePlanTwoBlocked();
    var r := ApproveRole(ap, ByDirector, DirectorName, "t1");
    assert r[2].role == ByDirector && r[2].status == ApprovalApproved;
    assert r[1] == ap[1] && r[1].status != ApprovalApproved;
  }

  /** Once approved, a row offers no button, so its approval cannot be repeated or undone. */
  lemma ApprovedRowIsFinal(approvals: seq<PlanApproval>, role: ApprovalRole, name: string, now: string, i: int)
    requires 0 <= i < |approvals| && approvals[i].role == role
    ensures !ButtonEnabled(ApproveRole(approvals, role, name, now), i)
  {
  }

  /** All three sign-offs are in. */
  predicate FullyApproved(approvals: seq<PlanApproval>) {
    forall a :: a in approvals ==> a.status == ApprovalApproved
  }

  /** The second plan of the sample data: the doctor has signed, the social worker has not. */
  const SamplePlanTwo: RehabPlan := RehabPlan(
    "plan_2", "1401", "لاحق يحيى شوعان علي جابر الحساني", "2023-11-01", "2024-11-01",
    MedicalContext("Cerebral Palsy (CP)", []),
    SocialContext("Average", MediumRisk),
    [SmartGoal("g3", Medical, "Regular Checkups", None, "Monthly visits", "2024-11-01", 20, GoalInProgress, "Dr. Khalid")],
    [PlanApproval(ByDoctor, ApprovalApproved, Some("Dr. Khalid"), Some("2023-11-02"), None),
     PlanApproval(BySocialWorker, ApprovalPending, None, None, None),
     PlanApproval(ByDirector, ApprovalPending, None, None, None)],
    PlanDraft)

  /** On the sample plan the doctor has signed and the director's button is disabled. */
  lemma SamplePlanTwoBlocked()
    ensures DirectorDisabled(SamplePlanTwo.approvals)
    ensures !ButtonEnabled(SamplePlanTwo.approvals, 2)
    ensures !ButtonShown(SamplePlanTwo.approvals[0])
  {
    var ap := SamplePlanTwo.approvals;
    assert ap[1] in ap && ap[1].role != ByDirector;
  }

  const SocialWorkerName: string := "أ. علي (أخصائي اجتماعي)"
  const DirectorName: string := "د. عبدالله (المدير)"

  /**
   * Once the social worker signs the sample plan, the director can sign,
   * and then all three sign-offs are in.
   */
  lemma SamplePlanTwoGovernance()
    ensures var afterSw := ApproveRole(SamplePlanTwo.approvals, BySocialWorker, SocialWorkerName, "t1");
      Permitted(SocialWorker, BySocialWorker) &&
      !DirectorDisabled(afterSw) && ButtonEnabled(afterSw, 2) &&
      Permitted(Director, ByDirector) &&
      FullyApproved(ApproveRole(afterSw, ByDirector, DirectorName, "t2"))
  {
    var ap := SamplePlanTwo.approvals;
    var afterSw := ApproveRole(ap, BySocialWorker, SocialWorkerName, "t1");
    assert afterSw == [ap[0], afterSw[1], ap[2]];
    assert afterSw[1].status == ApprovalApproved;
    var fin := ApproveRole(afterSw, ByDirector, DirectorName, "t2");
    assert fin == [ap[0], afterSw[1], fin[2]];
    assert fin[2].status == ApprovalApproved;
  }

  /** The save button's message: a plan without a beneficiary is not saved. */
  function SaveNotice(plan: PlanState): (t: Toast)
    ensures t.kind == Error <==> !Truthy(plan.beneficiaryId)
    ensures t.kind != Info
  {
    if !Truthy(plan.beneficiaryId) then Toast("لا يمكن حفظ خطة فارغة", Error)
    else Toast("تم حفظ مسودة الخطة بنجاح", Success)
  }

  /** The builder's state: the selected beneficiary and the plan being edited. */
  class PlanBuilder {
    var selectedBeneficiaryId: string
    var plan: PlanState

    constructor ()
      ensures selectedBeneficiaryId == "" && plan == InitialPlan
    {
      selectedBeneficiaryId := "";
      plan := InitialPlan;
    }

    /**
     * Choosing a beneficiary in the selector. When the choice changes to a
     * known beneficiary, the plan takes that beneficiary's context and its
     * goals start over; otherwise the plan is kept.
     */
    method SelectBeneficiary(id: string, beneficiaries: seq<Beneficiary>)
      modifies this
      ensures selectedBeneficiaryId == id
      ensures var found := FindBeneficiary(beneficiaries, id);
        if id != old(selectedBeneficiaryId) && found.Some? then plan == WithContext(old(plan), found.value)
        else plan == old(plan)
    {
      var found := FindBeneficiary(beneficiaries, id);
      if id != selectedBeneficiaryId && found.Some? {
        plan := WithContext(plan, found.value);
      }
      selectedBeneficiaryId := id;
    }

    /** Adds one goal at the end, unless no beneficiary is selected. */
    method AddGoal(suggestion: Option<(GoalType, string)>, stamp: string, user: User) returns (toast: Option<Toast>)
      modifies this
      ensures selectedBeneficiaryId == old(selectedBeneficiaryId)
      ensures old(selectedBeneficiaryId) == "" ==>
        plan == old(plan) && toast == Some(Toast("يرجى اختيار مستفيد أولاً", Error))
      ensures old(selectedBeneficiaryId) != "" ==>
        plan == old(plan).(goals := old(plan).goals + [NewGoal(suggestion, stamp, user.name)]) &&
        toast == (if suggestion.Some? then Some(Toast("تم إضافة المقترح بنجاح", Success)) else None)
    {
      if selectedBeneficiaryId == "" {
        return Some(Toast("يرجى اختيار مستفيد أولاً", Error));
      }
      plan := plan.(goals := plan.goals + [NewGoal(suggestion, stamp, user.name)]);
      toast := if suggestion.Some? then Some(Toast("تم إضافة المقترح بنجاح", Success)) else None;
    }

    method UpdateGoal(id: string, p: GoalPatch)
      modifies this
      ensures plan == old(plan).(goals := UpdateGoals(old(plan).goals, id, p))
      ensures selectedBeneficiaryId == old(selectedBeneficiaryId)
    {
      plan := plan.(goals := UpdateGoals(plan.goals, id, p));
    }

    method RemoveGoal(id: string) returns (toast: Toast)
      modifies this
      ensures plan == old(plan).(goals := RemoveGoals(old(plan).goals, id))
      ensures selectedBeneficiaryId == old(selectedBeneficiaryId)
      ensures toast == Toast("تم حذف الهدف", Info)
    {
      plan := plan.(goals := RemoveGoals(plan.goals, id));
      toast := Toast("تم حذف الهدف", Info);
    }

    /** The approve handler: refused unless the user holds the role or is the administrator. */
    method Approve(role: ApprovalRole, user: User, now: string) returns (toast: Toast)
      modifies this
      ensures selectedBeneficiaryId == old(selectedBeneficiaryId)
      ensures !Permitted(user.role, role) ==>
        plan == old(plan) &&
        toast == Toast("عذراً، فقط " + RoleName(role) + " يمكنه اعتماد هذه الخطوة", Error)
      ensures Permitted(user.role, role) ==>
        plan == old(plan).(approvals := ApproveRole(old(plan).approvals, role, user.name, now)) &&
        toast == Toast("تم الاعتماد بنجاح", Success)
    {
      if !Permitted(user.role, role) {
        return Toast("عذراً، فقط " + RoleName(role) + " يمكنه اعتماد هذه الخطوة", Error);
      }
      plan := plan.(approvals := ApproveRole(plan.approvals, role, user.name, now));
      toast := Toast("تم الاعتماد بنجاح", Success);
    }

    /** A click on the button of sign-off row `i`: nothing happens when the row offers no enabled button. */
    method PressApprovalButton(i: int, user: User, now: string) returns (toast: Option<Toast>)
      requires 0 <= i < |plan.approvals|
      modifies this
      ensures selectedBeneficiaryId == old(selectedBeneficiaryId)
      ensures !ButtonEnabled(old(plan).approvals, i) ==> plan == old(plan) && toast == None
      ensures ButtonEnabled(old(plan).approvals, i) && Permitted(user.role, old(plan).approvals[i].role) ==>
        plan == old(plan).(approvals := ApproveRole(old(plan).approvals, old(plan).approvals[i].role, user.name, now))
      ensures ButtonEnabled(old(plan).approvals, i) && !Permitted(user.role, old(plan).approvals[i].role) ==>
        plan == old(plan)
      ensures GateHolds(old(plan).approvals) ==> GateHolds(plan.approvals)
    {
      if !ButtonEnabled(plan.approvals, i) {
        return None;
      }
      if GateHolds(plan.approvals) {
        EnabledPressKeepsGate(plan.approvals, i, user.name, now);
      }
      var t := Approve(plan.approvals[i].role, user, now);
      toast := Some(t);
    }

    /** The save button only reports; nothing is stored. */
    method Save() returns (toast: Toast)
      ensures toast == SaveNotice(plan)
    {
      toast := SaveNotice(plan);
    }
  }
}
