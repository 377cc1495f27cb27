// The smart risk register: the score of a new risk, its level band, the
// colour bands of the form preview and of the table, and the add-risk form.

module RiskRegister {
  import opened Common
  import opened QualityTypes

  /** The order of the levels, from low to critical. */
  function LevelRank(l: RiskLevel): nat {
    match l
    case LowLevel => 0
    case MediumLevel => 1
    case HighLevel => 2
    case CriticalLevel => 3
  }

  /** The level band of a score: above 15, above 9, above 4, or the rest. */
  function Band(score: int): (l: RiskLevel)
    ensures l == CriticalLevel <==> score > 15
    ensures l == HighLevel <==> 9 < score <= 15
    ensures l == MediumLevel <==> 4 < score <= 9
    ensures l == LowLevel <==> score <= 4
  {
    if score > 15 then CriticalLevel
    else if score > 9 then HighLevel
    else if score > 4 then MediumLevel
    else LowLevel
  }

  /** A higher score never lands in a lower band. */
  lemma BandMonotone(a: int, b: int)
    requires a <= b
    ensures LevelRank(Band(a)) <= LevelRank(Band(b))
  {
  }

  function CalculateScore(likelihood: int, impact: int): int {
    likelihood * impact
  }

  /** The `x || 1` of the form: a zero reading falls back to one. */
  function OrOne(x: int): int {
    if x == 0 then 1 else x
  }

  /** The add-risk form. It has no input for the category. */
  datatype RiskDraft = RiskDraft(
    description: string,
    category: string,
    likelihood: int,
    impact: int,
    mitigationPlan: string)

  const BlankDraft := RiskDraft("", "Operational", 1, 1, "")

  /** What the form hands to the dashboard: the draft with score and level. */
  datatype NewRisk = NewRisk(
    description: string,
    category: string,
    likelihood: int,
    impact: int,
    mitigationPlan: string,
    score: int,
    level: RiskLevel)

  /**
   * The risk a save emits: none for an empty description; otherwise the
   * draft's fields, the score of the readings (a zero reading counting as
   * one) and the band of the raw product of the readings.
   */
  function Submission(d: RiskDraft): (r: Option<NewRisk>)
    ensures r.None? <==> d.description == ""
    ensures r.Some? ==>
      r.value.description == d.description && r.value.category == d.category &&
      r.value.likelihood == d.likelihood && r.value.impact == d.impact &&
      r.value.mitigationPlan == d.mitigationPlan
    ensures r.Some? ==> r.value.score == OrOne(d.likelihood) * OrOne(d.impact)
    ensures r.Some? ==> r.value.level == Band(d.likelihood * d.impact)
  {
    if d.description == "" then None
    else Some(NewRisk(d.description, d.category, d.likelihood, d.impact, d.mitigationPlan,
                      CalculateScore(OrOne(d.likelihood), OrOne(d.impact)),
                      Band(d.likelihood * d.impact)))
  }

  /** Both readings lie on the 1 to 5 sliders. */
  predicate OnSliders(d: RiskDraft) {
    1 <= d.likelihood <= 5 && 1 <= d.impact <= 5
  }

  /**
   * With slider readings the score is exactly likelihood times impact, lies
   * in 1..25, and the saved level is the band of the saved score.
   */
  lemma SliderSubmission(d: RiskDraft)
    requires OnSliders(d) && d.description != ""
    ensures var r := Submission(d).value;
      r.score == d.likelihood * d.impact && 1 <= r.score <= 25 && r.level == Band(r.score)
  {
    var r := Submission(d).value;
    assert r.score == d.likelihood * d.impact;
    assert 1 <= d.likelihood * d.impact by {
      MulPositive(d.likelihood, d.impact);
    }
    assert d.likelihood * d.impact <= 25 by {
      MulAtMostFive(d.likelihood, d.impact);
    }
  }

  lemma MulPositive(a: int, b: int)
    requires 1 <= a && 1 <= b
    ensures 1 <= a * b
  {
    MulLeft(a, 1, b);
  }

  lemma MulAtMostFive(a: int, b: int)
    requires 1 <= a <= 5 && 1 <= b <= 5
    ensures a * b <= 25
  {
    MulLeft(a, b, 5);
    MulLeft(5, a, 5);
  }

  datatype Badge = Red | Orange | Yellow | Green

  /** The colour a level is shown in. */
  function LevelBadge(l: RiskLevel): Badge {
    match l
    case CriticalLevel => Red
    case HighLevel => Orange
    case MediumLevel => Yellow
    case LowLevel => Green
  }

  /** The table's score badge, computed from the stored score. */
  function TableBadge(score: int): Badge {
    if score > 15 then Red
    else if score > 9 then Orange
    else if score > 4 then Yellow
    else Green
  }

  /** The form's live preview, computed from the raw readings. */
  function PreviewBadge(d: RiskDraft): Badge {
    var s := d.likelihood * d.impact;
    if s > 15 then Red
    else if s > 9 then Orange
    else if s > 4 then Yellow
    else Green
  }

  /** A table row is highlighted and flagged when its score exceeds 15. */
  predicate RowFlagged(r: Risk) {
    r.score > 15
  }

  /** The table's colour bands are the level bands. */
  lemma TableBadgeIsLevel(score: int)
    ensures TableBadge(score) == LevelBadge(Band(score))
    ensures TableBadge(score) == Red <==> Band(score) == CriticalLevel
  {
  }

  /**
   * A saved risk shows in the table in the colour of the preview it was saved
   * under, and is flagged exactly when its level is critical.
   */
  lemma SavedRiskShowsItsLevel(d: RiskDraft, id: string, owner: Option<string>, review: Option<string>)
    requires OnSliders(d) && d.description != ""
    ensures var n := Submission(d).value;
      var row := Risk(id, n.description, n.category, n.likelihood, n.impact, n.score, n.level,
                      n.mitigationPlan, owner, review);
      TableBadge(row.score) == PreviewBadge(d) == LevelBadge(row.level) &&
      (RowFlagged(row) <==> row.level == CriticalLevel)
  {
    SliderSubmission(d);
    TableBadgeIsLevel(d.likelihood * d.impact);
  }

  /**
   * Of the three demonstration risks the second is stored as medium with a
   * score of 10, which the banding puts in the high band.
   */
  lemma MockRiskLevels()
    ensures Band(RiskSlipperyFloor.score) == RiskSlipperyFloor.level
    ensures Band(RiskStaffBurnout.score) == RiskStaffBurnout.level
    ensures Band(RiskMedicationShortage.score) == HighLevel != RiskMedicationShortage.level
  {
  }

  /** The register's add panel and its draft. */
  class RiskForm {
    var isAdding: bool
    var newRisk: RiskDraft

    /** The sliders keep both readings in 1..5. */
    predicate Valid()
      reads this
    {
      OnSliders(newRisk)
    }

    constructor ()
      ensures Valid()
      ensures !isAdding && newRisk == BlankDraft
    {
      isAdding := false;
      newRisk := BlankDraft;
    }

    /** The add button opens a closed panel and closes an open one. */
    method ToggleAdding()
      modifies this
      ensures isAdding == !old(isAdding) && newRisk == old(newRisk)
    {
      isAdding := !isAdding;
    }

    /** Cancel closes the panel and keeps the draft. */
    method Cancel()
      modifies this
      ensures !isAdding && newRisk == old(newRisk)
    {
      isAdding := false;
    }

    method SetDescription(s: string)
      modifies this
      ensures newRisk == old(newRisk).(description := s) && isAdding == old(isAdding)
    {
      newRisk := newRisk.(description := s);
    }

    method SetMitigationPlan(s: string)
      modifies this
      ensures newRisk == old(newRisk).(mitigationPlan := s) && isAdding == old(isAdding)
    {
      newRisk := newRisk.(mitigationPlan := s);
    }

    /** A likelihood slider reading. */
    method SetLikelihood(v: int)
      requires Valid() && 1 <= v <= 5
      modifies this
      ensures Valid()
      ensures newRisk == old(newRisk).(likelihood := v) && isAdding == old(isAdding)
    {
      newRisk := newRisk.(likelihood := v);
    }

    /** An impact slider reading. */
    method SetImpact(v: int)
      requires Valid() && 1 <= v <= 5
      modifies this
      ensures Valid()
      ensures newRisk == old(newRisk).(impact := v) && isAdding == old(isAdding)
    {
      newRisk := newRisk.(impact := v);
    }

    /**
     * Emits the draft's risk when it has a description, then closes the panel
     * and resets the draft; with an empty description nothing is emitted and
     * nothing changes.
     */
    method Save() returns (emitted: Option<NewRisk>)
      requires Valid()
      modifies this
      ensures Valid()
      ensures emitted == Submission(old(newRisk))
      ensures emitted.None? ==> isAdding == old(isAdding) && newRisk == old(newRisk)
      ensures emitted.Some? ==> !isAdding && newRisk == BlankDraft
      ensures emitted.Some? ==>
        1 <= emitted.value.score <= 25 && emitted.value.level == Band(emitted.value.score)
    {
      emitted := Submission(newRisk);
      if emitted.Some? {
        SliderSubmission(newRisk);
        isAdding := false;
        newRisk := BlankDraft;
      }
    }
  }
}
