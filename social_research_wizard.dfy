// The four-step social research wizard: the step counter and its buttons,
// the stepper's flags, and the form record with its beneficiary auto-fill.

module SocialResearchWizard {
  import opened Common
  import opened Records

  /** The wizard's step titles, numbered 1 to 4 in this order. */
  const StepTitles: seq<string> := [
    "بيانات المستفيد والولي",
    "الوضع الأسري",
    "الوضع السكني والاقتصادي",
    "الرأي المهني والتوصيات"]

  const StepCount := |StepTitles|

  predicate InRange(step: int) {
    1 <= step <= StepCount
  }

  /** `Math.min(step + 1, 4)`. */
  function NextStep(step: int): int {
    if step + 1 < StepCount then step + 1 else StepCount
  }

  /** `Math.max(step - 1, 1)`. */
  function PrevStep(step: int): int {
    if step - 1 > 1 then step - 1 else 1
  }

  /**
   * Both buttons keep the step between 1 and 4; the last step is a fixed
   * point of "next" and the first of "previous", and elsewhere each moves
   * by exactly one.
   */
  lemma StepsStayInRange(step: int)
    requires InRange(step)
    ensures InRange(NextStep(step)) && InRange(PrevStep(step))
    ensures NextStep(step) == (if step == StepCount then step else step + 1)
    ensures PrevStep(step) == (if step == 1 then step else step - 1)
  {
  }

  /** "Previous" undoes "next" before the last step, and "next" undoes "previous" after the first. */
  lemma NextPrevUndo(step: int)
    requires InRange(step)
    ensures step < StepCount ==> PrevStep(NextStep(step)) == step
    ensures step > 1 ==> NextStep(PrevStep(step)) == step
  {
  }

  /** Enough presses of "next" reach the last step from anywhere in range, and stay there. */
  lemma {:induction false} NextReachesLast(step: int, presses: nat)
    requires InRange(step) && presses >= StepCount - step
    ensures Pressed(step, presses) == StepCount
    decreases presses
  {
    if presses > 0 {
      NextReachesLast(NextStep(step), presses - 1);
    }
  }

  /**
   * The buttons match the clamps: "previous" is disabled exactly on the step
   * where pressing it would not move, and "next" is on screen exactly on the
   * steps where pressing it moves.
   */
  lemma ButtonsMatchClamps(step: int)
    requires InRange(step)
    ensures step == 1 <==> PrevStep(step) == step
    ensures step < StepCount <==> NextStep(step) != step
  {
  }

  /** The step after pressing "next" `presses` times. */
  function Pressed(step: int, presses: nat): int
    decreases presses
  {
    if presses == 0 then step else Pressed(NextStep(step), presses - 1)
  }

  // ---------------------------------------------------------------------
  // The stepper

  predicate StepActive(current: int, id: int) {
    current == id
  }

  predicate StepCompleted(current: int, id: int) {
    current > id
  }

  /**
   * For a step in range, exactly one of the four steps is active, the steps
   * before it are the completed ones, and no step is both.
   */
  lemma StepperFlags(current: int)
    requires InRange(current)
    ensures exists id :: 1 <= id <= StepCount && StepActive(current, id)
    ensures forall i, j ::
      (1 <= i <= StepCount && 1 <= j <= StepCount && StepActive(current, i) && StepActive(current, j)) ==> i == j
    ensures forall id :: 1 <= id <= StepCount ==> (StepCompleted(current, id) <==> id < current)
    ensures forall id :: !(StepActive(current, id) && StepCompleted(current, id))
  {
    assert StepActive(current, current);
  }

  // ---------------------------------------------------------------------
  // The form record

  /** The partial research record: the fields filled so far, by field name. */
  type Form = map<string, string>

  /** The starting record: today's date, both parents alive, no chronic illness. */
  function InitialForm(today: string): (f: Form)
    ensures f.Keys == {"researchDate", "isFatherAlive", "isMotherAlive", "hasChronicIllness"}
    ensures f["researchDate"] == today
  {
    map["researchDate" := today, "isFatherAlive" := "yes", "isMotherAlive" := "yes", "hasChronicIllness" := "no"]
  }

  /** The record with the beneficiary's id and full name written into it. */
  function WithBeneficiary(form: Form, b: Beneficiary): (r: Form)
    ensures r.Keys == form.Keys + {"beneficiaryId", "beneficiaryName"}
    ensures r["beneficiaryId"] == b.id && r["beneficiaryName"] == b.fullName
    ensures forall k :: k in form && k != "beneficiaryId" && k != "beneficiaryName" ==> r[k] == form[k]
  {
    form["beneficiaryId" := b.id]["beneficiaryName" := b.fullName]
  }

  /** Auto-filling twice from the same beneficiary changes nothing more. */
  lemma WithBeneficiaryIdempotent(form: Form, b: Beneficiary)
    ensures WithBeneficiary(WithBeneficiary(form, b), b) == WithBeneficiary(form, b)
  {
  }

  /** A later auto-fill overrides an earlier one completely. */
  lemma WithBeneficiaryOverrides(form: Form, a: Beneficiary, b: Beneficiary)
    ensures WithBeneficiary(WithBeneficiary(form, a), b) == WithBeneficiary(form, b)
  {
  }

  /** The wizard's state cells. */
  class Wizard {
    var currentStep: int
    var selectedBeneficiaryId: string
    var formData: Form

    predicate Valid()
      reads this
    {
      InRange(currentStep)
    }

    /** "Previous" is disabled on the first step. */
    predicate PrevDisabled()
      reads this
    {
      currentStep == 1
    }

    /** "Next" is disabled on the first step until a beneficiary is chosen. */
    predicate NextDisabled()
      reads this
    {
      selectedBeneficiaryId == "" && currentStep == 1
    }

    /** On the last step the save button takes the place of "next". */
    predicate ShowsSubmit()
      reads this
    {
      !(currentStep < StepCount)
    }

    constructor (today: string)
      ensures Valid() && currentStep == 1
      ensures selectedBeneficiaryId == "" && formData == InitialForm(today)
    {
      currentStep := 1;
      selectedBeneficiaryId := "";
      formData := InitialForm(today);
    }

    method Next()
      requires Valid()
      modifies this
      ensures Valid() && currentStep == NextStep(old(currentStep))
      ensures selectedBeneficiaryId == old(selectedBeneficiaryId) && formData == old(formData)
    {
      currentStep := if currentStep + 1 < StepCount then currentStep + 1 else StepCount;
    }

    method Prev()
      requires Valid()
      modifies this
      ensures Valid() && currentStep == PrevStep(old(currentStep))
      ensures selectedBeneficiaryId == old(selectedBeneficiaryId) && formData == old(formData)
    {
      currentStep := if currentStep - 1 > 1 then currentStep - 1 else 1;
    }

    /**
     * Choosing in the beneficiary selector, followed by the auto-fill
     * effect: when the choice changes to the id of a known beneficiary, that
     * beneficiary's id and name are written into the record and every other
     * field is kept; otherwise the record is kept as it is.
     */
    method SelectBeneficiary(id: string, roster: seq<Beneficiary>)
      modifies this
      ensures selectedBeneficiaryId == id && currentStep == old(currentStep)
      ensures var found := FindBeneficiary(roster, id);
        if id != old(selectedBeneficiaryId) && id != "" && found.Some? then
          formData == WithBeneficiary(old(formData), found.value)
        else formData == old(formData)
    {
      var changed := id != selectedBeneficiaryId;
      selectedBeneficiaryId := id;
      if changed && id != "" {
        var found := FindBeneficiary(roster, id);
        if found.Some? {
          formData := WithBeneficiary(formData, found.value);
        }
      }
    }

    /** Typing into a field or choosing a radio option: that field alone takes the value. */
    method SetField(name: string, value: string)
      modifies this
      ensures formData == old(formData)[name := value]
      ensures currentStep == old(currentStep) && selectedBeneficiaryId == old(selectedBeneficiaryId)
    {
      formData := formData[name := value];
    }
  }
}
