// The ISO 9001 compliance report: findings and compliance summed over the
// audits, the nonconformity count, the compliance rate and the open
// corrective actions.

module ISOComplianceReport {
  import opened Common
  import opened QualityTypes
  import opened QualityDashboard

  function FindingsIn(): Audit -> int {
    (a: Audit) => |a.findings|
  }

  function IsCompliantFinding(): AuditFinding -> bool {
    (f: AuditFinding) => f.isCompliant
  }

  function IsNonCompliantFinding(): AuditFinding -> bool {
    (f: AuditFinding) => !f.isCompliant
  }

  function CompliantIn(): Audit -> int {
    (a: Audit) => |Filter(IsCompliantFinding(), a.findings)|
  }

  function NonCompliantIn(): Audit -> int {
    (a: Audit) => |Filter(IsNonCompliantFinding(), a.findings)|
  }

  /** The findings of all audits, summed audit by audit. */
  function TotalFindings(audits: seq<Audit>): int {
    SumOf(FindingsIn(), audits)
  }

  /** The compliant findings of all audits, summed audit by audit. */
  function CompliantFindings(audits: seq<Audit>): int {
    SumOf(CompliantIn(), audits)
  }

  /** The "nonconformities" figure: the findings that are not compliant. */
  function Nonconformities(audits: seq<Audit>): int {
    TotalFindings(audits) - CompliantFindings(audits)
  }

  /**
   * The compliant count is at most the total, so the nonconformity figure is
   * never negative: it is exactly the number of non-compliant findings.
   */
  lemma NonconformitiesCountNonCompliant(audits: seq<Audit>)
    ensures 0 <= CompliantFindings(audits) <= TotalFindings(audits)
    ensures Nonconformities(audits) == SumOf(NonCompliantIn(), audits)
    ensures Nonconformities(audits) >= 0
  {
    forall a | a in audits
      ensures FindingsIn()(a) == CompliantIn()(a) + NonCompliantIn()(a)
    {
      FilterComplement(IsCompliantFinding(), IsNonCompliantFinding(), a.findings);
    }
    SumPointwise(CompliantIn(), NonCompliantIn(), FindingsIn(), audits);
    SumNonNegative(CompliantIn(), audits);
    SumNonNegative(NonCompliantIn(), audits);
  }

  /**
   * The compliant share as a rounded percentage. The source divides without
   * a guard, so with no findings at all it shows NaN; that case is `None`.
   */
  function ComplianceRate(audits: seq<Audit>): (r: Option<int>)
    ensures r.None? <==> TotalFindings(audits) == 0
    ensures r.Some? ==> 0 <= r.value <= 100
    ensures r.Some? && Nonconformities(audits) == 0 ==> r.value == 100
    ensures r.Some? && CompliantFindings(audits) == 0 ==> r.value == 0
  {
    NonconformitiesCountNonCompliant(audits);
    var total := TotalFindings(audits);
    if total == 0 then None
    else
      RoundPercentRange(CompliantFindings(audits), total);
      Some(RoundPercent(CompliantFindings(audits), total))
  }

  /** The rate is shown in green from 85% up, and in red otherwise, NaN included. */
  function RateIsGreen(rate: Option<int>): bool {
    rate.Some? && rate.value >= 85
  }

  /** A green rate needs at least 84.5% of the findings compliant, the point from which 85 is reached by rounding. */
  lemma GreenNeedsMostlyCompliant(audits: seq<Audit>)
    requires RateIsGreen(ComplianceRate(audits))
    ensures 200 * CompliantFindings(audits) >= 169 * TotalFindings(audits)
  {
    var total := TotalFindings(audits);
    var c := CompliantFindings(audits);
    var r := RoundPercent(c, total);
    assert 2 * total * r <= 200 * c + total;
    MulMono(2 * total, 85, r);
  }

  function IsNotClosedCAPA(): CorrectiveAction -> bool {
    (c: CorrectiveAction) => c.status != CapaClosed
  }

  /** The corrective actions whose status is anything but closed. */
  function ReportOpenCAPAs(capas: seq<CorrectiveAction>): (n: nat)
    ensures n <= |capas|
  {
    |Filter(IsNotClosedCAPA(), capas)|
  }

  function IsVerifiedCAPA(): CorrectiveAction -> bool {
    (c: CorrectiveAction) => c.status == CapaVerified
  }

  /**
   * The report's open count is the dashboard's open-or-in-progress count
   * plus the verified actions, so it never falls below the dashboard's.
   */
  lemma ReportCountsVerifiedAsOpen(capas: seq<CorrectiveAction>)
    ensures ReportOpenCAPAs(capas) == OpenCAPAs(capas) + |Filter(IsVerifiedCAPA(), capas)|
    ensures ReportOpenCAPAs(capas) >= OpenCAPAs(capas)
  {
    FilterDisjoint(IsOpenCAPA(), IsVerifiedCAPA(), IsNotClosedCAPA(), capas);
  }

  /** The demonstration audit holds two findings, of which the first is compliant. */
  lemma MockAuditFindings()
    ensures FindingsIn()(MockAudit) == 2 && CompliantIn()(MockAudit) == 1
  {
    var fs := MockAudit.findings;
    assert fs == [FindingStorageLog] + [FindingPlanSignatures];
    FilterAppend(IsCompliantFinding(), [FindingStorageLog], [FindingPlanSignatures]);
    FilterSingleton(IsCompliantFinding(), FindingStorageLog);
    FilterSingleton(IsCompliantFinding(), FindingPlanSignatures);
  }

  /** On the demonstration audit: two findings, one compliant, a rate of 50% and two open actions. */
  lemma MockReportFigures()
    ensures TotalFindings(MockAudits) == 2 && CompliantFindings(MockAudits) == 1
    ensures Nonconformities(MockAudits) == 1
    ensures ComplianceRate(MockAudits) == Some(50) && !RateIsGreen(ComplianceRate(MockAudits))
    ensures ReportOpenCAPAs(MockCAPAs) == 2
  {
    MockAuditFindings();
    SumSingleton(FindingsIn(), MockAudit);
    SumSingleton(CompliantIn(), MockAudit);
    assert TotalFindings(MockAudits) == 2 && CompliantFindings(MockAudits) == 1;
    assert RoundPercent(1, 2) == 50;
    FilterAll(IsNotClosedCAPA(), MockCAPAs);
  }
}
