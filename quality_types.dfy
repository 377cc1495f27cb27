// Records of the quality-management screens: risks, incidents, corrective
// actions and internal audits, with the demonstration data they start from.

module QualityTypes {
  import opened Common

  datatype RiskLevel = LowLevel | MediumLevel | HighLevel | CriticalLevel

  /** A row of the risk register; score is likelihood times impact. */
  datatype Risk = Risk(
    id: string,
    description: string,
    category: string,
    likelihood: int,
    impact: int,
    score: int,
    level: RiskLevel,
    mitigationPlan: string,
    // A risk added through the register carries neither of these two.
    owner: Option<string>,
    lastReviewDate: Option<string>)

  datatype IncidentType = InjuryBeneficiary | InjuryStaff | NearMiss | Hazard | PropertyDamage

  datatype IncidentStatus = IncidentOpen | Investigating | IncidentClosed

  datatype Incident = Incident(
    id: string,
    incidentType: IncidentType,
    date: string,
    time: string,
    location: string,
    description: string,
    reportedBy: string,
    involvedPersons: string,
    immediateAction: string,
    status: IncidentStatus)

  datatype CAPAStatus = CapaOpen | CapaInProgress | CapaVerified | CapaClosed

  /** A corrective or preventive action, linked to an audit or an incident. */
  datatype CorrectiveAction = CorrectiveAction(
    id: string,
    auditId: Option<string>,
    incidentId: Option<string>,
    description: string,
    assignedTo: string,
    dueDate: string,
    status: CAPAStatus,
    rootCause: Option<string>,
    actionTaken: Option<string>,
    completionDate: Option<string>)

  datatype Severity = Minor | Major | Observation

  datatype AuditFinding = AuditFinding(
    id: string,
    auditId: string,
    area: string,
    criterion: string,
    isCompliant: bool,
    evidence: Option<string>,
    severity: Option<Severity>)

  datatype AuditStatus = Planned | AuditInProgress | AuditCompleted

  datatype Audit = Audit(
    id: string,
    title: string,
    auditorName: string,
    date: string,
    scope: string,
    status: AuditStatus,
    findings: seq<AuditFinding>)

  // Demonstration data.

  const RiskSlipperyFloor := Risk("r1", "Slippery floor in the dining area due to leakage", "Health & Safety",
    4, 4, 16, CriticalLevel, "Fix plumbing immediately; install non-slip mats.",
    Some("Maintenance Manager"), Some("2023-10-25"))
  const RiskMedicationShortage := Risk("r2", "Shortage of epilepsy medication", "Operational",
    2, 5, 10, MediumLevel, "Maintain 3-month buffer stock; alternative supplier contracts.",
    Some("Head Nurse"), Some("2023-10-20"))
  const RiskStaffBurnout := Risk("r3", "Staff burnout due to double shifts", "HR",
    3, 3, 9, MediumLevel, "Recruit part-time staff; rotate shifts fairly.",
    Some("HR Manager"), Some("2023-10-28"))

  const MockRisks: seq<Risk> := [RiskSlipperyFloor, RiskMedicationShortage, RiskStaffBurnout]

  const MockIncidents: seq<Incident> := [
    Incident("inc_01", InjuryStaff, "2023-10-28", "14:30", "Kitchen",
      "Chef cut finger while chopping vegetables.", "Kitchen Supervisor", "Chef Ahmed",
      "First aid applied; sent to clinic.", IncidentClosed),
    Incident("inc_02", NearMiss, "2023-10-29", "09:00", "Corridor A",
      "Wheelchair brake failed on ramp, but nurse caught it.", "Nurse Sara", "Beneficiary 1401",
      "Wheelchair sent to maintenance.", Investigating)
  ]

  const FindingStorageLog := AuditFinding("f1", "aud_2023_Q4", "Clinic", "Medication Storage Temperature Log",
    true, Some("Logs are up to date."), None)
  const FindingPlanSignatures := AuditFinding("f2", "aud_2023_Q4", "Rehab", "Individual Plans Signed by Director",
    false, Some("3 out of 10 plans missing signature."), Some(Minor))

  const MockAudit := Audit("aud_2023_Q4", "Q4 Internal Quality Audit (ISO 9001)", "Quality Officer",
    "2023-11-01", "Medical & Rehab Departments", AuditInProgress, [FindingStorageLog, FindingPlanSignatures])

  const MockAudits: seq<Audit> := [MockAudit]

  const MockCAPAs: seq<CorrectiveAction> := [
    CorrectiveAction("capa_01", Some("aud_2023_Q4"), None,
      "Ensure all Rehab Plans are signed within 48 hours.", "Rehab Director", "2023-11-05",
      CapaOpen, None, None, None),
    CorrectiveAction("capa_02", None, Some("inc_02"),
      "Inspect all wheelchair brakes weekly.", "Maintenance Head", "2023-11-01",
      CapaInProgress, Some("Wear and tear not detected in monthly check."),
      Some("Updated checklist to weekly frequency."), None)
  ]
}
