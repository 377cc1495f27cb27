// The quality dashboard: its risk list and active audit, the two handlers
// that replace them, and the headline counts.

module QualityDashboard {
  import opened Common
  import opened QualityTypes
  import opened RiskRegister

  /** The stored form of a risk handed over by the register, under a fresh id. */
  function StoredRisk(n: NewRisk, stamp: string): (r: Risk)
    ensures r.id == "r_" + stamp
    ensures r.description == n.description && r.category == n.category
    ensures r.likelihood == n.likelihood && r.impact == n.impact
    ensures r.score == n.score && r.level == n.level && r.mitigationPlan == n.mitigationPlan
    ensures r.owner.None? && r.lastReviewDate.None?
  {
    Risk("r_" + stamp, n.description, n.category, n.likelihood, n.impact, n.score, n.level,
         n.mitigationPlan, None, None)
  }

  /** The finding as updated by one compliance or evidence edit. */
  function UpdatedFinding(f: AuditFinding, isCompliant: bool, evidence: Option<string>): AuditFinding {
    f.(isCompliant := isCompliant, evidence := evidence)
  }

  /**
   * Every finding whose id matches takes the given compliance and evidence
   * (an omitted evidence clears the old one); the others, their number and
   * their order are untouched.
   */
  function UpdateFindings(fs: seq<AuditFinding>, id: string, isCompliant: bool, evidence: Option<string>)
    : (r: seq<AuditFinding>)
    ensures |r| == |fs|
    ensures forall k :: 0 <= k < |fs| ==>
      r[k] == (if fs[k].id == id then UpdatedFinding(fs[k], isCompliant, evidence) else fs[k])
    ensures forall k :: 0 <= k < |fs| ==> r[k].id == fs[k].id && r[k].area == fs[k].area
  {
    seq(|fs|, k requires 0 <= k < |fs| =>
      if fs[k].id == id then UpdatedFinding(fs[k], isCompliant, evidence) else fs[k])
  }

  /** Repeating an update changes nothing more. */
  lemma UpdateFindingsIdempotent(fs: seq<AuditFinding>, id: string, c: bool, e: Option<string>)
    ensures UpdateFindings(UpdateFindings(fs, id, c, e), id, c, e) == UpdateFindings(fs, id, c, e)
  {
  }

  /** An id that names no finding leaves the findings as they are. */
  lemma UpdateUnknownFinding(fs: seq<AuditFinding>, id: string, c: bool, e: Option<string>)
    requires forall k :: 0 <= k < |fs| ==> fs[k].id != id
    ensures UpdateFindings(fs, id, c, e) == fs
  {
  }

  function IsCriticalScore(): Risk -> bool {
    (r: Risk) => r.score > 15
  }

  function IsCriticalLevel(): Risk -> bool {
    (r: Risk) => r.level == CriticalLevel
  }

  /** The number of risks scoring above 15. */
  function CriticalRisks(risks: seq<Risk>): (n: nat)
    ensures n <= |risks|
  {
    |Filter(IsCriticalScore(), risks)|
  }

  /** Risks whose stored level is the band of their stored score. */
  predicate Banded(risks: seq<Risk>) {
    forall k :: 0 <= k < |risks| ==> risks[k].level == Band(risks[k].score)
  }

  /** For banded risks, those scoring above 15 are the critical-level ones. */
  lemma CriticalRisksAreCriticalLevel(risks: seq<Risk>)
    requires Banded(risks)
    ensures Filter(IsCriticalScore(), risks) == Filter(IsCriticalLevel(), risks)
  {
    forall x | x in risks
      ensures IsCriticalScore()(x) == IsCriticalLevel()(x)
    {
      var k :| 0 <= k < |risks| && risks[k] == x;
    }
    FilterExt(IsCriticalScore(), IsCriticalLevel(), risks);
  }

  /** Adding a risk raises the critical count by one exactly when it scores above 15. */
  lemma CriticalRisksAfterAdd(risks: seq<Risk>, r: Risk)
    ensures CriticalRisks(risks + [r]) == CriticalRisks(risks) + (if r.score > 15 then 1 else 0)
  {
    FilterAppend(IsCriticalScore(), risks, [r]);
    FilterSingleton(IsCriticalScore(), r);
  }

  function IsOpenCAPA(): CorrectiveAction -> bool {
    (c: CorrectiveAction) => c.status == CapaOpen || c.status == CapaInProgress
  }

  /** The number of corrective actions still open or in progress. */
  function OpenCAPAs(capas: seq<CorrectiveAction>): (n: nat)
    ensures n <= |capas|
  {
    |Filter(IsOpenCAPA(), capas)|
  }

  /** The dashboard's figures on its demonstration data. */
  lemma MockFigures()
    ensures CriticalRisks(MockRisks) == 1
    ensures OpenCAPAs(MockCAPAs) == 2
    ensures |MockIncidents| == 2
  {
    MockCriticalCount();
    FilterAll(IsOpenCAPA(), MockCAPAs);
  }

  /** Of the three demonstration risks, only one scores above 15. */
  lemma MockCriticalCount()
    ensures CriticalRisks(MockRisks) == 1
  {
    assert MockRisks == [RiskSlipperyFloor] + [RiskMedicationShortage] + [RiskStaffBurnout];
    FilterAppend(IsCriticalScore(), [RiskSlipperyFloor] + [RiskMedicationShortage], [RiskStaffBurnout]);
    FilterAppend(IsCriticalScore(), [RiskSlipperyFloor], [RiskMedicationShortage]);
    FilterSingleton(IsCriticalScore(), RiskSlipperyFloor);
    FilterSingleton(IsCriticalScore(), RiskMedicationShortage);
    FilterSingleton(IsCriticalScore(), RiskStaffBurnout);
  }

  /** The dashboard's state cells for risks and the active audit. */
  class QualityBoard {
    var risks: seq<Risk>
    var audit: Audit

    constructor ()
      ensures risks == MockRisks && audit == MockAudit
    {
      risks := MockRisks;
      audit := MockAudit;
    }

    /** Appends the register's risk at the end under the id "r_" + stamp. */
    method AddRisk(n: NewRisk, stamp: string)
      modifies this
      ensures risks == old(risks) + [StoredRisk(n, stamp)]
      ensures audit == old(audit)
    {
      risks := risks + [StoredRisk(n, stamp)];
    }

    /** Replaces the findings carrying the id; the rest of the audit is kept. */
    method UpdateFinding(id: string, isCompliant: bool, evidence: Option<string>)
      modifies this
      ensures audit == old(audit).(findings := UpdateFindings(old(audit).findings, id, isCompliant, evidence))
      ensures risks == old(risks)
    {
      audit := audit.(findings := UpdateFindings(audit.findings, id, isCompliant, evidence));
    }
  }

  /**
   * Risks saved through the register keep the list banded, so the critical
   * count keeps counting the critical-level risks.
   */
  lemma AddRegisteredRiskKeepsBanding(risks: seq<Risk>, d: RiskDraft, stamp: string)
    requires Banded(risks) && OnSliders(d) && d.description != ""
    ensures Banded(risks + [StoredRisk(Submission(d).value, stamp)])
  {
    SliderSubmission(d);
    var rs := risks + [StoredRisk(Submission(d).value, stamp)];
    forall k | 0 <= k < |rs|
      ensures rs[k].level == Band(rs[k].score)
    {
      if k < |risks| {
        assert rs[k] == risks[k];
      }
    }
  }
}
