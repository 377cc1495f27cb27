/**
 * The three-step medical admission form: personal data and diagnosis,
 * vital signs, medical history. Its validation is the admission workflow's
 * result for the current inputs, and a profile is saved only when that
 * result is valid.
 */
module NewAdmissionForm {
  import opened Common
  import opened MedicalTypes
  import opened MedicalWorkflow

  const InitialHistory: MedicalHistory :=
    MedicalHistory([], [], [], [], Some(SeizureHistory(false, None, None, None)))

  /** The validation inputs the form passes for its current fields. */
  function DraftOf(isEpileptic: bool, diagnosis: Diagnosis, history: MedicalHistory): ProfileDraft {
    ProfileDraft(Some(isEpileptic), Some(diagnosis), Some(history))
  }

  /** The untouched form (diagnosis "other", not epileptic, no readings) is valid. */
  lemma InitialFormIsValid()
    ensures var r := Evaluate(DraftOf(false, OtherDiagnosis, InitialHistory), Some(NoVitals), Some(""));
      r.isValid && r.errors == map[] && r.warnings == [] && !r.recommendIsolation && !r.requireSeizureHistory
  {
  }

  /** The record saved for a valid form. */
  function BuildProfile(id: string, beneficiaryId: string, now: string, diagnosis: Diagnosis, isEpileptic: bool,
                        vitals: Vitals, history: MedicalHistory, v: ValidationResult): (p: MedicalProfile)
    ensures p.id == id && p.beneficiaryId == beneficiaryId && p.admissionDate == now
    ensures p.primaryDiagnosis == diagnosis && p.isEpileptic == isEpileptic
    ensures p.latestVitals == vitals && p.history == history
    ensures p.secondaryDiagnoses == [] && p.currentMedications == []
    ensures p.infectionStatus.suspectedInfection == v.recommendIsolation
    ensures p.infectionStatus.isolationRecommended == v.recommendIsolation
    ensures p.infectionStatus.vaccinationStatus == VaccinationPending
    ensures p.infectionStatus.isolationReason.None? && p.infectionStatus.lastVaccinationDate.None?
  {
    MedicalProfile(id, beneficiaryId, now, diagnosis, [], isEpileptic, vitals, history, [],
      InfectionStatus(v.recommendIsolation, v.recommendIsolation, None, VaccinationPending, None))
  }

  class AdmissionForm {
    var step: int
    var selectedBeneficiaryId: string
    var vitals: Vitals
    var history: MedicalHistory
    var diagnosis: Diagnosis
    var isEpileptic: bool
    var checkupComment: string

    /** The step is one of the three pages. */
    predicate Valid()
      reads this
    {
      1 <= step <= 3
    }

    /** The validation result for the current fields. */
    function Validation(): ValidationResult
      reads this
    {
      Evaluate(DraftOf(isEpileptic, diagnosis, history), Some(vitals), Some(checkupComment))
    }

    /** The save button exists on the last page and is enabled only when valid. */
    predicate SubmitEnabled()
      reads this
    {
      step == 3 && Validation().isValid
    }

    constructor ()
      ensures Valid() && step == 1
      ensures selectedBeneficiaryId == "" && vitals == NoVitals && history == InitialHistory
      ensures diagnosis == OtherDiagnosis && !isEpileptic && checkupComment == ""
      ensures Validation().isValid
    {
      step := 1;
      selectedBeneficiaryId := "";
      vitals := NoVitals;
      history := InitialHistory;
      diagnosis := OtherDiagnosis;
      isEpileptic := false;
      checkupComment := "";
    }

    method Next()
      requires Valid()
      modifies this
      ensures Valid()
      ensures step == if old(step) < 3 then old(step) + 1 else old(step)
      ensures vitals == old(vitals) && history == old(history) && diagnosis == old(diagnosis)
      ensures isEpileptic == old(isEpileptic) && checkupComment == old(checkupComment)
      ensures selectedBeneficiaryId == old(selectedBeneficiaryId)
    {
      if step < 3 {
        step := step + 1;
      }
    }

    method Back()
      requires Valid()
      modifies this
      ensures Valid()
      ensures step == if old(step) > 1 then old(step) - 1 else old(step)
      ensures vitals == old(vitals) && history == old(history) && diagnosis == old(diagnosis)
      ensures isEpileptic == old(isEpileptic) && checkupComment == old(checkupComment)
      ensures selectedBeneficiaryId == old(selectedBeneficiaryId)
    {
      if step > 1 {
        step := step - 1;
      }
    }

    /** Any field edit: the page stays, validation follows the new fields. */
    method Edit(beneficiaryId: string, d: Diagnosis, epileptic: bool, v: Vitals, h: MedicalHistory, comment: string)
      requires Valid()
      modifies this
      ensures Valid() && step == old(step)
      ensures selectedBeneficiaryId == beneficiaryId && diagnosis == d && isEpileptic == epileptic
      ensures vitals == v && history == h && checkupComment == comment
    {
      selectedBeneficiaryId, diagnosis, isEpileptic := beneficiaryId, d, epileptic;
      vitals, history, checkupComment := v, h, comment;
    }

    /** The last-seizure date input: keeps the other seizure fields. */
    method SetLastSeizureDate(date: string)
      modifies this
      ensures history.seizureHistory.Some? && history.seizureHistory.value.lastSeizureDate == Some(date)
      ensures old(history).seizureHistory.Some? ==>
        history.seizureHistory.value == old(history).seizureHistory.value.(lastSeizureDate := Some(date))
      ensures history.chronicDiseases == old(history).chronicDiseases && history.surgeries == old(history).surgeries
      ensures history.allergies == old(history).allergies && history.familyHistory == old(history).familyHistory
      ensures step == old(step) && vitals == old(vitals) && diagnosis == old(diagnosis)
      ensures isEpileptic == old(isEpileptic) && checkupComment == old(checkupComment)
      ensures selectedBeneficiaryId == old(selectedBeneficiaryId)
    {
      var sh := if history.seizureHistory.Some? then history.seizureHistory.value
                else SeizureHistory(false, None, None, None);
      history := history.(seizureHistory := Some(sh.(lastSeizureDate := Some(date))));
    }

    /**
     * The submit handler: an invalid form saves nothing; a valid one yields
     * the profile handed to the caller.
     */
    method Submit(id: string, now: string) returns (saved: Option<MedicalProfile>)
      ensures saved.None? <==> !Validation().isValid
      ensures saved.Some? ==>
        saved.value == BuildProfile(id, selectedBeneficiaryId, now, diagnosis, isEpileptic, vitals, history, Validation())
      ensures saved.Some? ==>
        saved.value.infectionStatus.isolationRecommended == Feverish(Some(vitals))
    {
      var validation := ValidateWorkflow(DraftOf(isEpileptic, diagnosis, history), Some(vitals), Some(checkupComment));
      if !validation.isValid {
        return None;
      }
      saved := Some(BuildProfile(id, selectedBeneficiaryId, now, diagnosis, isEpileptic, vitals, history, validation));
    }
  }

  /** A form that validates has the seizure date for an epileptic beneficiary and a comment for abnormal readings. */
  lemma ValidFormMeetsRules(isEpileptic: bool, diagnosis: Diagnosis, history: MedicalHistory, vitals: Vitals, comment: string)
    requires Evaluate(DraftOf(isEpileptic, diagnosis, history), Some(vitals), Some(comment)).isValid
    ensures isEpileptic ==> history.seizureHistory.Some? && Truthy(history.seizureHistory.value.lastSeizureDate)
    ensures Abnormal(vitals) ==> comment != ""
  {
    var p := DraftOf(isEpileptic, diagnosis, history);
    var r := Evaluate(p, Some(vitals), Some(comment));
    assert r.errors == map[];
    assert CheckupKey !in r.errors && SeizureKey !in r.errors;
    CheckupErrorIff(p, Some(vitals), Some(comment));
    SeizureRule(p, Some(vitals), Some(comment), Some(diagnosis));
  }
}
