/**
 * The admission validation rules: abnormal vital signs need a written
 * comment, an epileptic beneficiary needs the date of the last seizure, and
 * a fever recommends isolation. A reading counts only when it is present
 * and non-zero, as a JavaScript truthiness test does.
 */
module MedicalWorkflow {
  import opened Common
  import opened MedicalTypes

  const CheckupKey: string := "checkup"
  const SeizureKey: string := "seizureHistory"
  const CheckupMessage: string := "لا يمكن حفظ الفحص اليومي بوجود علامات حيوية غير طبيعية دون كتابة ملاحظة طبية."
  const SeizureMessage: string := "يجب تعبئة تاريخ آخر نوبة للمرضى المشخصين بالصرع."
  const IsolationWarning: string := "درجة الحرارة مرتفعة (>38). تم تفعيل بروتوكول الاشتباه بالعدوى. يوصى بالعزل فوراً."

  datatype ValidationResult = ValidationResult(
    isValid: bool,
    errors: map<string, string>,
    warnings: seq<string>,
    recommendIsolation: bool,
    requireSeizureHistory: bool)

  /** The result before the first evaluation. */
  const InitialResult: ValidationResult := ValidationResult(true, map[], [], false, false)

  predicate RealTruthy(x: Option<real>) { x.Some? && x.value != 0.0 }

  predicate IntTruthy(x: Option<int>) { x.Some? && x.value != 0 }

  /** Some present reading lies outside its normal range. */
  predicate Abnormal(v: Vitals) {
    (RealTruthy(v.temperature) && (v.temperature.value < 36.0 || v.temperature.value > 37.5)) ||
    (IntTruthy(v.bloodPressureSystolic) && (v.bloodPressureSystolic.value > 140 || v.bloodPressureSystolic.value < 90)) ||
    (IntTruthy(v.pulse) && (v.pulse.value > 100 || v.pulse.value < 60))
  }

  predicate Feverish(vitals: Option<Vitals>) {
    vitals.Some? && RealTruthy(vitals.value.temperature) && vitals.value.temperature.value > 38.0
  }

  predicate Epileptic(p: ProfileDraft) { p.isEpileptic == Some(true) }

  /** `profile.history?.seizureHistory?.lastSeizureDate`. */
  function LastSeizureDate(p: ProfileDraft): Option<string> {
    if p.history.Some? && p.history.value.seizureHistory.Some? then
      p.history.value.seizureHistory.value.lastSeizureDate
    else None
  }

  /** The whole validation outcome as a function of its three inputs. */
  function Evaluate(profile: ProfileDraft, vitals: Option<Vitals>, comment: Option<string>): ValidationResult {
    var checkup := vitals.Some? && Abnormal(vitals.value) && !Truthy(comment);
    var seizure := Epileptic(profile) && !Truthy(LastSeizureDate(profile));
    var errors := (if checkup then map[CheckupKey := CheckupMessage] else map[]) +
                  (if seizure then map[SeizureKey := SeizureMessage] else map[]);
    var fever := Feverish(vitals);
    ValidationResult(errors == map[], errors, if fever then [IsolationWarning] else [], fever, Epileptic(profile))
  }

  /**
   * The validation routine: fills an error dictionary and a warning list
   * rule by rule, then reports validity as the absence of error keys.
   */
  method ValidateWorkflow(profile: ProfileDraft, vitals: Option<Vitals>, comment: Option<string>)
    returns (result: ValidationResult)
    ensures result == Evaluate(profile, vitals, comment)
  {
    var errors: map<string, string> := map[];
    var warnings: seq<string> := [];
    var recommendIsolation := false;
    var requireSeizureHistory := false;
    ghost var checkup := vitals.Some? && Abnormal(vitals.value) && !Truthy(comment);
    ghost var seizure := Epileptic(profile) && !Truthy(LastSeizureDate(profile));
    ghost var e1: map<string, string> := if checkup then map[CheckupKey := CheckupMessage] else map[];
    ghost var e2: map<string, string> := if seizure then map[SeizureKey := SeizureMessage] else map[];

    if vitals.Some? {
      var v := vitals.value;
      var isAbnormal := Abnormal(v);
      if isAbnormal && !Truthy(comment) {
        errors := errors[CheckupKey := CheckupMessage];
      }
    }
    assert errors == e1;

    if profile.isEpileptic == Some(true) || profile.primaryDiagnosis == Some(OtherDiagnosis) {
      if profile.isEpileptic == Some(true) {
        requireSeizureHistory := true;
        if !Truthy(LastSeizureDate(profile)) {
          errors := errors[SeizureKey := SeizureMessage];
        }
      }
    }
    assert errors == e1 + e2;

    if vitals.Some? && RealTruthy(vitals.value.temperature) && vitals.value.temperature.value > 38.0 {
      recommendIsolation := true;
      warnings := warnings + [IsolationWarning];
    }

    result := ValidationResult(|errors.Keys| == 0, errors, warnings, recommendIsolation, requireSeizureHistory);
    EvaluateIs(profile, vitals, comment, e1, e2, result);
  }

  /** The routine's result, given its error dictionary in two parts, is the outcome. */
  lemma EvaluateIs(profile: ProfileDraft, vitals: Option<Vitals>, comment: Option<string>,
                   e1: map<string, string>, e2: map<string, string>, result: ValidationResult)
    requires e1 == if vitals.Some? && Abnormal(vitals.value) && !Truthy(comment) then map[CheckupKey := CheckupMessage] else map[]
    requires e2 == if Epileptic(profile) && !Truthy(LastSeizureDate(profile)) then map[SeizureKey := SeizureMessage] else map[]
    requires result.errors == e1 + e2 && result.isValid == (|result.errors.Keys| == 0)
    requires result.warnings == (if Feverish(vitals) then [IsolationWarning] else [])
    requires result.recommendIsolation == Feverish(vitals) && result.requireSeizureHistory == Epileptic(profile)
    ensures result == Evaluate(profile, vitals, comment)
  {
    EmptyKeys(result.errors);
  }

  lemma EmptyKeys(m: map<string, string>)
    ensures |m.Keys| == 0 <==> m == map[]
  {
    if |m.Keys| == 0 {
      assert m.Keys == {};
    }
  }

  /** Valid exactly when no error is recorded, and only the two known keys occur. */
  lemma ValidIffNoErrors(profile: ProfileDraft, vitals: Option<Vitals>, comment: Option<string>)
    ensures var r := Evaluate(profile, vitals, comment);
      (r.isValid <==> |r.errors| == 0) &&
      (forall k :: k in r.errors ==> k == CheckupKey || k == SeizureKey)
  {
    var r := Evaluate(profile, vitals, comment);
    if |r.errors| == 0 {
      assert r.errors.Keys == {};
    }
    if r.errors == map[] {
      assert |r.errors| == 0;
    }
  }

  /**
   * The checkup error: readings were supplied, no comment was written, and
   * a present, non-zero temperature, systolic pressure or pulse is out of
   * range.
   */
  lemma CheckupErrorIff(profile: ProfileDraft, vitals: Option<Vitals>, comment: Option<string>)
    ensures CheckupKey in Evaluate(profile, vitals, comment).errors <==>
      vitals.Some? && (comment.None? || comment.value == "") &&
      ((vitals.value.temperature.Some? && vitals.value.temperature.value != 0.0 &&
        (vitals.value.temperature.value < 36.0 || vitals.value.temperature.value > 37.5)) ||
       (vitals.value.bloodPressureSystolic.Some? && vitals.value.bloodPressureSystolic.value != 0 &&
        (vitals.value.bloodPressureSystolic.value < 90 || vitals.value.bloodPressureSystolic.value > 140)) ||
       (vitals.value.pulse.Some? && vitals.value.pulse.value != 0 &&
        (vitals.value.pulse.value < 60 || vitals.value.pulse.value > 100)))
    ensures CheckupKey in Evaluate(profile, vitals, comment).errors ==>
      Evaluate(profile, vitals, comment).errors[CheckupKey] == CheckupMessage
  {
    assert CheckupKey != SeizureKey;
  }

  /** Diastolic pressure, oxygen saturation, respiration and body measures never matter. */
  lemma IgnoredReadings(profile: ProfileDraft, v: Vitals, comment: Option<string>,
                        diastolic: Option<int>, spo2: Option<int>, respiration: Option<int>,
                        weight: Option<real>, height: Option<real>, bmi: Option<real>)
    ensures Evaluate(profile, Some(v.(bloodPressureDiastolic := diastolic, oxygenSaturation := spo2,
                                      respiratoryRate := respiration, weight := weight,
                                      height := height, bmi := bmi)), comment)
         == Evaluate(profile, Some(v), comment)
  {
  }

  /**
   * The seizure rule: the seizure history is required exactly for an
   * epileptic beneficiary, and missing (or empty) last-seizure date is then
   * an error. The diagnosis plays no part.
   */
  lemma SeizureRule(profile: ProfileDraft, vitals: Option<Vitals>, comment: Option<string>, d: Option<Diagnosis>)
    ensures Evaluate(profile, vitals, comment).requireSeizureHistory <==> profile.isEpileptic == Some(true)
    ensures SeizureKey in Evaluate(profile, vitals, comment).errors <==>
      profile.isEpileptic == Some(true) && (LastSeizureDate(profile).None? || LastSeizureDate(profile).value == "")
    ensures Evaluate(profile.(primaryDiagnosis := d), vitals, comment) == Evaluate(profile, vitals, comment)
  {
    assert CheckupKey != SeizureKey;
  }

  /** Isolation is recommended exactly for a temperature above 38, with exactly one warning then. */
  lemma IsolationRule(profile: ProfileDraft, vitals: Option<Vitals>, comment: Option<string>)
    ensures var r := Evaluate(profile, vitals, comment);
      (r.recommendIsolation <==> vitals.Some? && vitals.value.temperature.Some? && vitals.value.temperature.value > 38.0) &&
      (r.recommendIsolation ==> r.warnings == [IsolationWarning]) &&
      (!r.recommendIsolation ==> r.warnings == [])
  {
  }

  /** A fever alone never blocks: with a comment written and no seizure rule at stake, any readings are valid. */
  lemma IsolationNeverBlocks(profile: ProfileDraft, vitals: Option<Vitals>, comment: Option<string>)
    requires Truthy(comment) && profile.isEpileptic != Some(true)
    ensures Evaluate(profile, vitals, comment).isValid
  {
  }

  /** 39.1 degrees and no comment: invalid because of the checkup rule, with isolation recommended. */
  lemma FeverWithoutComment(profile: ProfileDraft)
    requires profile.isEpileptic != Some(true)
    ensures var r := Evaluate(profile, Some(NoVitals.(temperature := Some(39.1))), Some(""));
      !r.isValid && r.errors.Keys == {CheckupKey} && r.recommendIsolation && |r.warnings| == 1
  {
    var v := NoVitals.(temperature := Some(39.1));
    assert Abnormal(v);
    assert !Truthy(Some(""));
    var r := Evaluate(profile, Some(v), Some(""));
    assert r.errors == map[CheckupKey := CheckupMessage];
    assert CheckupKey in r.errors;
    assert r.errors.Keys == {CheckupKey};
    assert Feverish(Some(v));
  }

  /** An epileptic beneficiary without a last-seizure date cannot be admitted. */
  lemma EpilepticWithoutDate(history: MedicalHistory, vitals: Option<Vitals>, comment: Option<string>)
    requires history.seizureHistory.None? || history.seizureHistory.value.lastSeizureDate.None?
    ensures var r := Evaluate(ProfileDraft(Some(true), Some(OtherDiagnosis), Some(history)), vitals, comment);
      SeizureKey in r.errors && !r.isValid && r.requireSeizureHistory
  {
  }

  /** What the hook holds: the last result written. */
  class WorkflowHook {
    var validation: ValidationResult

    constructor ()
      ensures validation == InitialResult
    {
      validation := InitialResult;
    }

    /** The effect that re-runs the validation whenever an input changes. */
    method Refresh(profile: ProfileDraft, vitals: Option<Vitals>, comment: Option<string>)
      modifies this
      ensures validation == Evaluate(profile, vitals, comment)
    {
      validation := ValidateWorkflow(profile, vitals, comment);
    }
  }

  /** Before the first evaluation the hook reports a valid result with nothing raised. */
  lemma InitialResultIsClean()
    ensures InitialResult.isValid && InitialResult.errors == map[] && InitialResult.warnings == []
    ensures !InitialResult.recommendIsolation && !InitialResult.requireSeizureHistory
    ensures InitialResult == Evaluate(ProfileDraft(None, None, None), None, None)
  {
  }
}
