# A verified model of a beneficiary-management system's rules

This project models, in Dafny, the in-memory rules of a web application for a
residential rehabilitation centre. The application manages beneficiaries and their
guardians, medical admissions, rehabilitation plans, social research, leave
requests, quality audits, risks, assets and reports. The modelled rules are these:

- **Leave-request workflow.** A social worker files a leave request. The doctor
  gives medical clearance, then the administrator, who stands in for the director,
  takes the final decision. Every decision is appended to the request's audit trail,
  and the decision controls are gated by the acting role and the status.
- **Rehabilitation plan builder.** The smart-suggestion rules propose goals. Goals are
  added, updated and removed by id. The doctor, the social worker and the director
  each sign off the plan, and the director's button waits for the other two.
- **Medical admission.** The validation rules cover abnormal vital signs without a
  comment, an epileptic beneficiary without a last-seizure date, and isolation on a
  fever. The three-page admission form builds the medical profile it saves.
- **Roles.** The permission test, the role switch, and the route guard that admits
  a role.
- **The application's top-level state.** The saved forms, the visit logs, and the
  clothing inventory that a clothing request decrements.
- **Quality.** Risk scoring and banding, the risk register form, audit findings
  grouped by area, the audit completion gate, and corrective actions.
- **Dashboards and reports.** Plan and goal metrics, the diagnosis distribution, the
  newest enrolments, asset and ticket tallies, the sustainability report and the
  ISO 9001 compliance report.
- **Lists and wizards.** The beneficiary search and its CSV rows, the asset filter,
  and the social-research wizard's step machine and beneficiary auto-fill.

Each source file has a module of its own; the types of `src/types` have theirs
(`LeaveTypes`, `RehabTypes`, `MedicalTypes`, `QualityTypes`, `AssetTypes`,
`Records`). `Common` holds the shared sequence toolkit: filtering, sums,
substring tests, rounded percentages, a stable descending sort and grouping by
key. The form of each module follows its source:

- React state cells that handlers replace are the fields of a class, with one
  method per handler, for example `LeaveRequestBoard`, `PlanBuilder`, `App`,
  `AdmissionForm`, `Wizard`, `RiskForm` and `QualityBoard`. Each method states the
  whole new state, in terms of record functions whose properties are proved as
  lemmas.
- Chains of `if`s that fill a local list or dictionary are methods with the
  same chain: the suggestion rules and the validation. Loops in the source
  (the metric tallies, the diagnosis reduce and the grouping by area) are
  methods with loops.
- Pure expressions are functions.

The acting user, the clock, generated ids, and the module-level mock data are
passed in as parameters, never read from ambient state.

JavaScript's `Math.round(a / b * 100)` is modelled as exact round-half-up,
`(200a + b) div 2b`, which is `Common.RoundPercent`. Where the source divides
without a guard and would show `NaN`, the model returns an `Option`, with `None`
standing for `NaN`. `Option` fields also model the optional (`?`) fields of the
source's records, and a vital sign that is absent or `NaN` is `None`.

## Model

| member | source | states |
|---|---|---|
| Records.FindBeneficiary | src/components/social/LeaveRequestFlow.tsx:65 | the result, when there is one, is a listed beneficiary with the requested id, and there is none exactly when no listed beneficiary has that id |
| UserContext.MockUser | src/context/UserContext.tsx:20-26 | the mock user filed under a role plays that role |
| UserContext.MockUsersDistinct | src/context/UserContext.tsx:20-26 | different roles are played by mock users with different ids |
| UserContext.HasPermission | src/context/UserContext.tsx:35-40 | a single required role is met only by that role, a list of roles exactly by the roles it contains |
| UserContext.NoHierarchy | src/context/UserContext.tsx:39 | no role stands in for another: a one-role check fails for every other role, the director included |
| UserContext.EmptyListDenies | src/context/UserContext.tsx:36-38 | an empty list of roles is met by nobody |
| UserContext.SingletonListIsOneRole | src/context/UserContext.tsx:35-40 | a one-element list and the single-role check agree on every current role |
| UserContext.UserSession.constructor | src/context/UserContext.tsx:29 | the session starts as the director's mock user |
| UserContext.UserSession.SwitchRole | src/context/UserContext.tsx:31-33 | after the switch the current user is the mock user of the chosen role and plays that role |
| ProtectedRoute.Guard | src/components/ProtectedRoute.tsx:11-19 | without a role list the children always render; with one they render exactly when the current role is in it |
| ProtectedRoute.EmptyListDeniesAll | src/components/ProtectedRoute.tsx:14 | an empty role list denies every role, unlike an absent list |
| ProtectedRoute.GuardIsPermission | src/components/ProtectedRoute.tsx:14-18 | the guard admits exactly the roles the role authority's list check admits |
| AppState.DecrementInventory | src/components/App.tsx:139-147 | the stock list keeps its length, order and ids; an item named by the request loses the quantity of the first request line naming it, floored at zero, and every other item is unchanged |
| AppState.RequestedNeverNegative | src/components/App.tsx:141-143 | a requested item's new quantity is never negative, whatever the request and stock quantities |
| AppState.FirstLineApplies | src/components/App.tsx:141 | when several request lines name the same item, the first of them alone is subtracted |
| AppState.DecrementBounded | src/components/App.tsx:140-146 | with non-negative stock and request quantities every item ends between zero and its old quantity |
| AppState.UnrelatedRequestKeepsInventory | src/components/App.tsx:140-146 | a request naming no stocked item leaves the inventory exactly as it was |
| AppState.App.constructor | src/components/App.tsx:34-90 | every form list, activity list and the clothing and profile lists start empty, every modal flag false, no beneficiary selected, and the visit log and inventory start from the given data |
| AppState.App.SelectBeneficiary | src/components/App.tsx:100-102 | the selection becomes the given beneficiary and nothing else changes |
| AppState.App.StartForm | src/components/App.tsx:109-210 | opening a form sets its own modal flag only |
| AppState.App.CancelForm | src/components/App.tsx:110-209 | cancelling a form clears its own modal flag only and saves nothing |
| AppState.App.SaveForm | src/components/App.tsx:111-213 | saving a form appends it to the end of its own list and closes its modal; every other list and flag is unchanged |
| AppState.App.AddActivity | src/components/App.tsx:334-336 | a social-activity record is appended to its own list and nothing else changes |
| AppState.App.AddVisitLog | src/components/App.tsx:130-132 | a new visit log is put in front of the existing logs and nothing else changes |
| AppState.App.StartClothingRequest | src/components/App.tsx:134 | opens the clothing-request form and changes nothing else |
| AppState.App.CancelClothingRequest | src/components/App.tsx:135 | closes the clothing-request form and changes nothing else |
| AppState.App.SaveClothingRequest | src/components/App.tsx:136-150 | the request is appended, the inventory becomes its decremented form and the form closes; nothing else changes |
| AppState.App.StartMedicalProfile | src/components/App.tsx:276 | opens the admission form and changes nothing else |
| AppState.App.CancelMedicalProfile | src/components/App.tsx:349 | closes the admission form and changes nothing else |
| AppState.App.SaveMedicalProfile | src/components/App.tsx:345-347 | the new profile is appended to the medical profiles and the admission form closes; nothing else changes |
| AssetRegistry.FilteredAssets | src/components/assets/AssetRegistry.tsx:36-44 | the listed assets keep registry order and are exactly the assets whose name, tag or location contains the term and that pass both select filters |
| AssetRegistry.DefaultsListEverything | src/components/assets/AssetRegistry.tsx:32-44 | with the initial empty search and both filters on "all", every asset is listed |
| AssetRegistry.NarrowingListsFewer | src/components/assets/AssetRegistry.tsx:41 | choosing one category never lists more assets than "all" with the same search and condition |
| AssetRegistry.FilterIdempotent | src/components/assets/AssetRegistry.tsx:36-44 | filtering the listed assets again with the same inputs lists the same assets |
| AssetRegistry.ConditionFilterAlone | src/components/assets/AssetRegistry.tsx:36-44 | with an empty search and every category, the listing is exactly the assets in the chosen condition |
| BeneficiaryListPanel.FilteredBeneficiaries | src/components/BeneficiaryListPanel.tsx:15-19 | the listed beneficiaries keep their order and are exactly those whose lower-cased name contains the lower-cased term or whose id contains the term |
| BeneficiaryListPanel.EmptyTermKeepsAll | src/components/BeneficiaryListPanel.tsx:15-19 | an empty search term lists every beneficiary, in order |
| BeneficiaryListPanel.SplitJoin | src/components/BeneficiaryListPanel.tsx:24 | splitting a joined list on the separator gives the parts back when no part contains the separator |
| BeneficiaryListPanel.RowSplitsIntoFields | src/components/BeneficiaryListPanel.tsx:24 | a row whose fields hold no comma or newline is one line and splits on commas into its four quoted fields: name, national id or empty, room or empty, enrolment date |
| BeneficiaryListPanel.CsvLines | src/components/BeneficiaryListPanel.tsx:21-24 | after the data-URI prefix, the export splits into lines as the header followed by one row per listed beneficiary, in list order |
| BeneficiaryListPanel.EmptyCsv | src/components/BeneficiaryListPanel.tsx:22-24 | with nobody listed the export is the prefix and the header line alone |
| BeneficiaryListPanel.SelectionHighlightsOne | src/components/BeneficiaryListPanel.tsx:45-47 | the selected beneficiary's own item is highlighted, and no other is when id and name together tell the listed beneficiaries apart |
| DashboardMetrics.GoalTallies | src/hooks/useDashboardMetrics.ts:19-42 | after the nested loops the goal count is the number of goals over all plans, the progress total is their summed progress, and each type's tally counts exactly that type's goals, its completed goals and its progress |
| DashboardMetrics.PlanGoals | src/hooks/useDashboardMetrics.ts:30-41 | the inner loop extends the three running figures from the goals seen before to those goals followed by the plan's goals |
| DashboardMetrics.ComputeMetrics | src/hooks/useDashboardMetrics.ts:6-78 | the hook's result is the dashboard's figures as functions of the beneficiary and plan lists |
| DashboardMetrics.AllRows | src/hooks/useDashboardMetrics.ts:47-50 | one department row per goal type in declaration order, each with the rounded average progress of its tally (0 for an empty type) |
| DashboardMetrics.TypeTotalsCoverGoals | src/hooks/useDashboardMetrics.ts:29-42 | each goal is counted under exactly one type: the five type totals add up to the goal count |
| DashboardMetrics.CompletedWithinTotal | src/hooks/useDashboardMetrics.ts:35-39 | a type's completed count lies between zero and its goal count |
| DashboardMetrics.GoalCountIsSumOfPlanSizes | src/hooks/useDashboardMetrics.ts:29-31 | the goal count is the sum of the plans' goal-list lengths |
| DashboardMetrics.RatesInRange | src/hooks/useDashboardMetrics.ts:16-51 | both rates are 0 on an empty denominator; with progress values in 0..100 the overall rate and every department average are in 0..100, and the plan compliance rate is when no more plans are active than there are beneficiaries |
| DashboardMetrics.DepartmentRowsExact | src/hooks/useDashboardMetrics.ts:47-51 | the department table keeps declaration order and lists exactly the types that have goals, each row carrying its own type's tally |
| DashboardMetrics.CountsBounded | src/hooks/useDashboardMetrics.ts:10-61 | active and draft plans together, the pending director approvals and the critical cases never exceed the plan count, nor active beneficiaries the beneficiary count |
| DashboardPanel.ActiveCases | src/components/DashboardPanel.tsx:12 | the active-case count never exceeds the number of beneficiaries |
| DashboardPanel.ActiveCasesExcludeExits | src/components/DashboardPanel.tsx:12 | the active cases are exactly those not in exit status: the total less the exits, and everybody when nobody has exited |
| DashboardPanel.LowStockItems | src/components/DashboardPanel.tsx:13 | the low-stock count never exceeds the number of stock lines |
| DashboardPanel.LowStockCountsShortLines | src/components/DashboardPanel.tsx:13 | it is 0 when every line holds at least ten, and every line when each holds fewer than ten |
| DashboardPanel.PresentNow | src/components/DashboardPanel.tsx:17-57 | the "present now" card is the active cases less the three fixed external visits; it is at most the total less three and negative exactly when fewer than three cases are active |
| DashboardPanel.DiagnosisDistribution | src/components/DashboardPanel.tsx:20-24 | the reduce loop keys the tally by exactly the diagnoses that occur (a missing one as "غير محدد"), in first-occurrence order, each with the number of beneficiaries carrying it, and its entries are the distribution's entries |
| DashboardPanel.EntriesOf | src/components/DashboardPanel.tsx:27 | the entries of a tally list each key once, in key order, with its count |
| DashboardPanel.DistributionDistinct | src/components/DashboardPanel.tsx:20-27 | no diagnosis is listed twice |
| DashboardPanel.DistributionListsEveryone | src/components/DashboardPanel.tsx:20-27 | every beneficiary's diagnosis is among the entries |
| DashboardPanel.DistributionCountsPositive | src/components/DashboardPanel.tsx:20-27 | every entry counts at least one beneficiary |
| DashboardPanel.DistributionSumsToTotal | src/components/DashboardPanel.tsx:20-27 | the entry counts add up to the number of beneficiaries |
| DashboardPanel.TopDiagnosesAreMostFrequent | src/components/DashboardPanel.tsx:27-29 | the top list has five entries or all when fewer, runs in non-increasing count, takes its entries from the distribution, and no entry left out counts more than one shown |
| DashboardPanel.RecentEnrollmentsAreNewest | src/components/DashboardPanel.tsx:32-34 | the recent list has five beneficiaries or all when fewer, newest enrolment first, each from the list, and nobody left out enrolled later than anybody shown |
| DigitalAuditTool.GroupOf | src/components/quality/DigitalAuditTool.tsx:16-20 | an area's group holds exactly the findings of that area, in checklist order |
| DigitalAuditTool.AreasListGroups | src/components/quality/DigitalAuditTool.tsx:16-22 | an area is listed exactly when it has a finding, no area is listed twice, and the group sizes add up to the number of findings |
| DigitalAuditTool.FindingInOwnGroup | src/components/quality/DigitalAuditTool.tsx:16-20 | a finding lies in its own area's group and in no other |
| DigitalAuditTool.GroupByArea | src/components/quality/DigitalAuditTool.tsx:16-22 | the reduce creates exactly one list per area, in the order the areas first appear, and each list is that area's findings in checklist order |
| DigitalAuditTool.Progress | src/components/quality/DigitalAuditTool.tsx:24 | the progress is a rounded percentage in 0..100 of evidenced findings, and absent (NaN in the source) exactly when the audit has no findings |
| DigitalAuditTool.ProgressEnds | src/components/quality/DigitalAuditTool.tsx:24 | full evidence gives 100 and no evidence gives 0 |
| DigitalAuditTool.RoundedGateAdmitsMissingEvidence | src/components/quality/DigitalAuditTool.tsx:24-104 | the gate as written: with 200 or more findings and one lacking evidence the progress rounds to 100 and completion is enabled though not every finding is evidenced |
| DigitalAuditTool.CompletionAllowedIff | src/components/quality/DigitalAuditTool.tsx:104 | the exact gate opens precisely when every finding carries evidence, and wherever it opens the gate as written is open too |
| DigitalAuditTool.ComplianceClick | src/components/quality/DigitalAuditTool.tsx:64-77 | a compliance button sends the finding's id and the chosen compliance with no evidence |
| DigitalAuditTool.ComplianceClickKeepingEvidence | src/components/quality/DigitalAuditTool.tsx:64-86 | the corrected button sends the chosen compliance together with the finding's current evidence |
| DigitalAuditTool.EvidenceInput | src/components/quality/DigitalAuditTool.tsx:85 | typing evidence sends the typed text with the finding's current compliance |
| DigitalAuditTool.ComplianceClickWipesEvidence | src/pages/QualityDashboard.tsx:31-36 | on the demonstration audit, pressing "compliant" on an already compliant and evidenced finding erases its evidence, so the progress falls from 100 to 50 |
| DigitalAuditTool.MockClickResult | src/pages/QualityDashboard.tsx:34 | that click leaves the first demonstration finding without evidence and the second unchanged |
| DigitalAuditTool.MockAuditFullyEvidenced | src/components/quality/DigitalAuditTool.tsx:24 | the demonstration audit starts at 100 percent |
| DigitalAuditTool.ComplianceKeepingEvidenceKeepsProgress | src/pages/QualityDashboard.tsx:31-36 | with the corrected button a compliance click sets that finding's compliance, keeps its evidence and never moves the progress |
| DigitalAuditTool.EvidenceInputKeepsCompliance | src/components/quality/DigitalAuditTool.tsx:85 | typing evidence sets the finding's evidence and leaves every finding's compliance as it was |
| DigitalAuditTool.NextExpanded | src/components/quality/DigitalAuditTool.tsx:50 | clicking the open area's header closes it; clicking any other opens that one |
| DigitalAuditTool.DoubleClickRestores | src/components/quality/DigitalAuditTool.tsx:50 | starting from all closed or from that very area open, two clicks on the same header bring the accordion back to where it was |
| DigitalAuditTool.AuditChecklist.constructor | src/components/quality/DigitalAuditTool.tsx:13 | the accordion starts with every area closed |
| DigitalAuditTool.AuditChecklist.ClickArea | src/components/quality/DigitalAuditTool.tsx:50-56 | after a click either no area is shown (the clicked one was open) or exactly the clicked area is |
| RiskRegister.Band | src/components/quality/RiskRegister.tsx:29-31 | each score falls in exactly one band: critical above 15, high above 9 up to 15, medium above 4 up to 9, low otherwise |
| RiskRegister.BandMonotone | src/components/quality/RiskRegister.tsx:29-31 | a higher score never lands in a lower band |
| RiskRegister.Submission | src/components/quality/RiskRegister.tsx:24-32 | nothing is emitted exactly when the description is empty; otherwise the draft's fields are kept, the score is the product of the readings with a zero reading taken as one, and the level is the band of the raw product |
| RiskRegister.SliderSubmission | src/components/quality/RiskRegister.tsx:22-31 | for slider readings the score is likelihood times impact, lies in 1..25, and the level is the band of that score |
| RiskRegister.TableBadgeIsLevel | src/components/quality/RiskRegister.tsx:126-128 | the table's score colours follow the level bands, red exactly for the critical band |
| RiskRegister.SavedRiskShowsItsLevel | src/components/quality/RiskRegister.tsx:90-92 | a saved risk's table colour equals the preview colour it was saved under and its level's colour, and its row is flagged exactly when it is critical |
| RiskRegister.MockRiskLevels | src/data/quality.ts:17-35 | the first and third demonstration risks carry the band of their score; the second, scored 10, is stored as medium though the banding gives high |
| RiskRegister.RiskForm.constructor | src/components/quality/RiskRegister.tsx:13-20 | the panel starts closed with the blank draft: no description, category "Operational", readings 1 and 1, no mitigation plan |
| RiskRegister.RiskForm.ToggleAdding | src/components/quality/RiskRegister.tsx:45 | the add button flips the panel and keeps the draft |
| RiskRegister.RiskForm.Cancel | src/components/quality/RiskRegister.tsx:99 | cancel closes the panel and keeps the draft |
| RiskRegister.RiskForm.SetDescription | src/components/quality/RiskRegister.tsx:58 | only the draft's description changes |
| RiskRegister.RiskForm.SetMitigationPlan | src/components/quality/RiskRegister.tsx:86 | only the draft's mitigation plan changes |
| RiskRegister.RiskForm.SetLikelihood | src/components/quality/RiskRegister.tsx:64-68 | only the likelihood changes, to a slider value in 1..5 |
| RiskRegister.RiskForm.SetImpact | src/components/quality/RiskRegister.tsx:74-78 | only the impact changes, to a slider value in 1..5 |
| RiskRegister.RiskForm.Save | src/components/quality/RiskRegister.tsx:24-36 | the emitted risk is the draft's submission; on an empty description nothing changes, otherwise the panel closes, the draft resets, and the emitted score is in 1..25 with the level of its band |
| QualityDashboard.StoredRisk | src/pages/QualityDashboard.tsx:27-29 | the stored risk carries every field the register sent and the id "r_" followed by the time stamp |
| QualityDashboard.UpdateFindings | src/pages/QualityDashboard.tsx:31-36 | every finding with the id takes the given compliance and evidence, an omitted evidence clearing it; the others, the count, the order, the ids and the areas are unchanged |
| QualityDashboard.UpdateFindingsIdempotent | src/pages/QualityDashboard.tsx:34 | repeating an update changes nothing more |
| QualityDashboard.UpdateUnknownFinding | src/pages/QualityDashboard.tsx:34 | an id naming no finding leaves the findings as they are |
| QualityDashboard.CriticalRisks | src/pages/QualityDashboard.tsx:22 | the critical count never exceeds the number of risks |
| QualityDashboard.CriticalRisksAreCriticalLevel | src/pages/QualityDashboard.tsx:22 | when every stored level is the band of its score, the risks scoring above 15 are exactly the critical-level ones |
| QualityDashboard.CriticalRisksAfterAdd | src/pages/QualityDashboard.tsx:22-29 | adding a risk raises the critical count by one exactly when it scores above 15 |
| QualityDashboard.OpenCAPAs | src/pages/QualityDashboard.tsx:23 | the open-action count never exceeds the number of actions |
| QualityDashboard.MockFigures | src/pages/QualityDashboard.tsx:22-24 | on the demonstration data: one critical risk, two open actions, two incidents |
| QualityDashboard.QualityBoard.constructor | src/pages/QualityDashboard.tsx:18-19 | the dashboard starts with the demonstration risks and the first demonstration audit |
| QualityDashboard.QualityBoard.AddRisk | src/pages/QualityDashboard.tsx:27-29 | the stored risk is appended at the end and the audit is untouched |
| QualityDashboard.QualityBoard.UpdateFinding | src/pages/QualityDashboard.tsx:31-36 | only the audit's findings change, by the update above; the risks are untouched |
| QualityDashboard.AddRegisteredRiskKeepsBanding | src/components/quality/RiskRegister.tsx:24-32 | risks saved through the register's sliders keep every level equal to the band of its score |
| SupportDashboard.FiguresBounded | src/pages/SupportDashboard.tsx:21-25 | the damaged assets are among the assets, the open and the assigned-or-resolved tickets split the ticket list, the urgent tickets are among the tickets, and with non-negative asset values the total value is non-negative |
| SupportDashboard.AssignedAndResolvedNotOpen | src/pages/SupportDashboard.tsx:24 | tickets that are all assigned or resolved give an open count of 0 |
| SupportDashboard.MockSupportFigures | src/pages/SupportDashboard.tsx:21-25 | on the demonstration data: 5 assets worth 151500, one damaged, two open tickets, one urgent |
| SupportDashboard.MockDamagedCount | src/data/assets.ts:3-63 | the second demonstration asset is the only damaged one |
| SupportDashboard.MockAssetValue | src/pages/SupportDashboard.tsx:22 | the demonstration assets are worth 151500 together |
| SupportDashboard.MockTicketCounts | src/data/assets.ts:65-88 | both demonstration tickets are open or in progress and one of them is urgent |
| SustainabilityReport.SumsCountFlattenedGoals | src/components/reports/SustainabilityReport.tsx:10-11 | the plan-by-plan sums of goals and of achieved goals count the same goals as the flattened goal list |
| SustainabilityReport.AchievedWithinTotal | src/components/reports/SustainabilityReport.tsx:10-11 | the achieved goals number between zero and the total |
| SustainabilityReport.SuccessRate | src/components/reports/SustainabilityReport.tsx:12 | the success rate is in 0..100, 0 without goals or without achieved goals, and 100 when every goal is achieved |
| SustainabilityReport.DamagedWithinTotal | src/components/reports/SustainabilityReport.tsx:15-16 | with non-negative values the damaged value lies between zero and the total value |
| SustainabilityReport.AssetUtilizationRate | src/components/reports/SustainabilityReport.tsx:15-17 | the rate is absent (NaN in the source) exactly when the total value is 0; otherwise it is in 0..100, 100 with nothing damaged and 0 when everything is |
| SustainabilityReport.MockAssetUtilization | src/components/reports/SustainabilityReport.tsx:15-17 | on the demonstration assets 146500 of 151500 is in service: 97 percent |
| SustainabilityReport.ClosedCountEnds | src/components/reports/SustainabilityReport.tsx:21 | all incidents closed counts them all, none closed counts none |
| SustainabilityReport.SafetyResponseRate | src/components/reports/SustainabilityReport.tsx:20-22 | the rate is in 0..100, 100 with no incidents or all closed, and 0 when some exist and none is closed |
| SustainabilityReport.MockSafetyResponse | src/data/quality.ts:42-67 | one of the two demonstration incidents is closed: 50 percent |
| SustainabilityReport.RowFor | src/components/reports/SustainabilityReport.tsx:71-81 | a table row belongs to its type, its achieved count lies between zero and its total, and its rate is in 0..100 and 0 for a type without goals |
| SustainabilityReport.TypeTable | src/components/reports/SustainabilityReport.tsx:70-84 | the table has one row per listed type, in the order medical, social, psychological, physiotherapy |
| SustainabilityReport.RowIsTally | src/components/reports/SustainabilityReport.tsx:71-73 | a row's total and achieved counts are the management dashboard's total and completed tally for that type |
| SustainabilityReport.TableOmitsOccupational | src/components/reports/SustainabilityReport.tsx:70 | no row is occupational, and the four row totals with the occupational goals make up all the goals |
| ISOComplianceReport.NonconformitiesCountNonCompliant | src/components/reports/ISOComplianceReport.tsx:9-30 | the compliant findings number between zero and the total, so the nonconformity figure is exactly the count of non-compliant findings and never negative |
| ISOComplianceReport.ComplianceRate | src/components/reports/ISOComplianceReport.tsx:11 | the rate is absent (NaN in the source) exactly when there are no findings; otherwise it is in 0..100, 100 without nonconformities and 0 without compliant findings |
| ISOComplianceReport.GreenNeedsMostlyCompliant | src/components/reports/ISOComplianceReport.tsx:26 | a green rate needs at least 84.5 percent of the findings compliant |
| ISOComplianceReport.ReportOpenCAPAs | src/components/reports/ISOComplianceReport.tsx:13 | the report's open count never exceeds the number of actions |
| ISOComplianceReport.ReportCountsVerifiedAsOpen | src/components/reports/ISOComplianceReport.tsx:13 | the report's open count is the quality dashboard's open-or-in-progress count plus the verified actions, so never below it |
| ISOComplianceReport.MockReportFigures | src/components/reports/ISOComplianceReport.tsx:8-30 | on the demonstration audit: two findings, one compliant, one nonconformity, a rate of 50 shown in red, and two open actions |
| SocialResearchWizard.StepsStayInRange | src/components/social/SocialResearchWizard.tsx:49-50 | both buttons keep the step in 1..4; "next" stays on the last step and otherwise adds one, "previous" stays on the first and otherwise subtracts one |
| SocialResearchWizard.NextPrevUndo | src/components/social/SocialResearchWizard.tsx:49-50 | "previous" undoes "next" before the last step, and "next" undoes "previous" after the first |
| SocialResearchWizard.NextReachesLast | src/components/social/SocialResearchWizard.tsx:49 | from any step, enough presses of "next" reach the last step and stay there |
| SocialResearchWizard.ButtonsMatchClamps | src/components/social/SocialResearchWizard.tsx:271-278 | "previous" is disabled exactly on the step where it would not move, and "next" is on screen exactly on the steps where it moves |
| SocialResearchWizard.StepperFlags | src/components/social/SocialResearchWizard.tsx:236-239 | exactly one step is active, the completed steps are exactly those before it, and no step is both |
| SocialResearchWizard.InitialForm | src/components/social/SocialResearchWizard.tsx:27-32 | the record starts with four fields: today's date, both parents alive and no chronic illness |
| SocialResearchWizard.WithBeneficiary | src/components/social/SocialResearchWizard.tsx:39-44 | the auto-fill adds the beneficiary's id and full name and keeps every other field |
| SocialResearchWizard.WithBeneficiaryIdempotent | src/components/social/SocialResearchWizard.tsx:39-44 | auto-filling twice from the same beneficiary changes nothing more |
| SocialResearchWizard.WithBeneficiaryOverrides | src/components/social/SocialResearchWizard.tsx:39-44 | a later auto-fill replaces an earlier one completely |
| SocialResearchWizard.Wizard.constructor | src/components/social/SocialResearchWizard.tsx:23-32 | the wizard starts on step 1 with no beneficiary chosen and the initial record |
| SocialResearchWizard.Wizard.Next | src/components/social/SocialResearchWizard.tsx:49 | the step becomes the clamped next step and nothing else changes |
| SocialResearchWizard.Wizard.Prev | src/components/social/SocialResearchWizard.tsx:50 | the step becomes the clamped previous step and nothing else changes |
| SocialResearchWizard.Wizard.SelectBeneficiary | src/components/social/SocialResearchWizard.tsx:35-47 | the choice is stored; when it changed to a non-empty id of a known beneficiary the record is auto-filled from that beneficiary, and otherwise the record is kept |
| SocialResearchWizard.Wizard.SetField | src/components/social/SocialResearchWizard.tsx:81-89 | typing into a field sets that field alone and leaves the step and the choice as they were |
| LeaveRequestFlow.Entry | src/components/social/LeaveRequestFlow.tsx:123-130 | an audit-trail entry names the acting user's id, name and role, the time, the action and the note |
| LeaveRequestFlow.DatePart | src/components/social/LeaveRequestFlow.tsx:72 | the date part is the prefix of the timestamp before its first "T" and contains no "T" |
| LeaveRequestFlow.DatePartExample | src/components/social/LeaveRequestFlow.tsx:72 | the date part of "2024-05-01T08:30:00Z" is "2024-05-01" |
| LeaveRequestFlow.DatePartPrefix | src/components/social/LeaveRequestFlow.tsx:72 | a date without "T" followed by a time part starting with "T" gives back the date |
| LeaveRequestFlow.NewRequest | src/components/social/LeaveRequestFlow.tsx:68-91 | a new request has the id "LR-" and the stamp, the beneficiary's id and name, the date part of `now` (the text before its first 'T'), the draft's leave type (a home visit when unset) and its other fields, two days, status pending medical review, no clearance, and one "request" entry by the creator |
| LeaveRequestFlow.NewRequestDatedToday | src/components/social/LeaveRequestFlow.tsx:71 | a request created at the ISO timestamp `date` + "T…" carries exactly `date` as its request date, as `toISOString().split('T')[0]` gives |
| LeaveRequestFlow.ApprovedRecord | src/components/social/LeaveRequestFlow.tsx:99-132 | the doctor at medical review clears the request as fit with the note as precautions and forwards it to the director; the administrator at the director stage approves it; any other pair keeps status and clearance; an "approve" entry is appended in every case and nothing else changes |
| LeaveRequestFlow.RejectedRecord | src/components/social/LeaveRequestFlow.tsx:139-155 | the record becomes rejected whatever its status, a "reject" entry is appended, and nothing else changes |
| LeaveRequestFlow.ReplaceById | src/components/social/LeaveRequestFlow.tsx:134 | the list keeps its length; records with the id become the updated record and the others are kept in place |
| LeaveRequestFlow.ReplaceByIdMembers | src/components/social/LeaveRequestFlow.tsx:134 | the replaced list holds only the updated record and old records, and an unknown id leaves the list unchanged |
| LeaveRequestFlow.VisibleRequests | src/components/social/LeaveRequestFlow.tsx:186-191 | the list keeps its order; social workers and the administrator see everything, nurses and a missing user nothing, and the doctor exactly the requests pending medical review or approved |
| LeaveRequestFlow.DoctorSeesNoDirectorQueue | src/components/social/LeaveRequestFlow.tsx:188 | the doctor never sees a request waiting for the director or a rejected one |
| LeaveRequestFlow.InfectionFlag | src/components/social/LeaveRequestFlow.tsx:14-17 | of the canned medical statuses only beneficiary "2" is flagged as infected |
| LeaveRequestFlow.MedicalPanelOnlyInDecisionArea | src/components/social/LeaveRequestFlow.tsx:281-317 | the medical warning panel shows only where the decision area is offered, and never to the administrator |
| LeaveRequestFlow.Step | src/components/social/LeaveRequestFlow.tsx:316-334 | a decision click takes effect exactly when a user is present and the decision area is offered to that user's role on the request's status, and then it is the approve or reject handler |
| LeaveRequestFlow.StepAdvances | src/components/social/LeaveRequestFlow.tsx:99-159 | every accepted click moves the request strictly forward in the workflow, appends exactly one entry and keeps its id and beneficiary |
| LeaveRequestFlow.RunMonotone | src/components/social/LeaveRequestFlow.tsx:99-159 | over any clicks, a request in the workflow stays in it, climbs one rank per accepted click (so at most two are accepted), its trail only grows, by one entry per accepted click, and its identity is kept |
| LeaveRequestFlow.DecidedIsFinal | src/components/social/LeaveRequestFlow.tsx:316-317 | an approved or rejected request is not changed by any click |
| LeaveRequestFlow.ApprovalNeedsClearance | src/components/social/LeaveRequestFlow.tsx:105-115 | a request that ends at the director or approved has been cleared as fit by a doctor |
| LeaveRequestFlow.ApproveAcceptedIff | src/components/social/LeaveRequestFlow.tsx:316-317 | an approve click succeeds exactly for the doctor at medical review and the administrator at the director stage |
| LeaveRequestFlow.ClearThenReject | src/components/social/LeaveRequestFlow.tsx:95-159 | from any request pending medical review, the doctor's approval forwards it to the director with a fit clearance carrying the note, the director's rejection then leaves it rejected with three trail entries, and no further approve click is accepted |
| LeaveRequestFlow.CreateClearRejectScenario | src/components/social/LeaveRequestFlow.tsx:63-159 | a request filed at 2024-05-01T08:00 is dated 2024-05-01; filing, medical clearance and the director's rejection leave a rejected request with three trail entries that no further approve click changes |
| LeaveRequestFlow.LeaveRequestBoard.constructor | src/components/social/LeaveRequestFlow.tsx:21-61 | the board starts with the one sample request, both dialogs closed, an empty note, the default draft and no beneficiary chosen |
| LeaveRequestFlow.LeaveRequestBoard.Shown | src/components/social/LeaveRequestFlow.tsx:186-191 | the shown list is drawn from the stored requests in their order |
| LeaveRequestFlow.LeaveRequestBoard.OpenNewRequest | src/components/social/LeaveRequestFlow.tsx:198 | opens the new-request dialog and changes nothing else |
| LeaveRequestFlow.LeaveRequestBoard.SelectBeneficiary | src/components/social/LeaveRequestFlow.tsx:243 | only the chosen beneficiary id changes |
| LeaveRequestFlow.LeaveRequestBoard.EditDraft | src/components/social/LeaveRequestFlow.tsx:252-257 | only the draft changes |
| LeaveRequestFlow.LeaveRequestBoard.CreateRequest | src/components/social/LeaveRequestFlow.tsx:63-97 | without a chosen id, without a user, or when the id names no beneficiary nothing changes; otherwise the new request goes first, the dialog closes, the draft is emptied and the choice cleared |
| LeaveRequestFlow.LeaveRequestBoard.SelectRequest | src/components/social/LeaveRequestFlow.tsx:224 | opens the details dialog on the request and changes nothing else |
| LeaveRequestFlow.LeaveRequestBoard.SetActionNote | src/components/social/LeaveRequestFlow.tsx:324 | only the decision note changes |
| LeaveRequestFlow.LeaveRequestBoard.ApproveRequest | src/components/social/LeaveRequestFlow.tsx:99-137 | without a user nothing changes; otherwise the approved record replaces the request by id, the dialog closes and the note is cleared |
| LeaveRequestFlow.LeaveRequestBoard.RejectRequest | src/components/social/LeaveRequestFlow.tsx:139-159 | without a user nothing changes; otherwise the rejected record replaces the request by id, the dialog closes and the note is cleared |
| LeaveRequestFlow.LeaveRequestBoard.Decide | src/components/social/LeaveRequestFlow.tsx:316-334 | a decision click with the area offered applies one accepted step to the selected request, stores it by id and closes the dialog; otherwise nothing changes |
| MedicalWorkflow.ValidateWorkflow | src/hooks/useMedicalWorkflow.ts:30-74 | the rule-by-rule routine produces exactly the validation outcome of its three inputs |
| MedicalWorkflow.ValidIffNoErrors | src/hooks/useMedicalWorkflow.ts:66 | the result is valid exactly when no error is recorded, and only the checkup and seizure keys ever occur |
| MedicalWorkflow.CheckupErrorIff | src/hooks/useMedicalWorkflow.ts:37-46 | the checkup error is raised exactly when readings were supplied, no comment was written, and a present non-zero temperature, systolic pressure or pulse is outside 36..37.5, 90..140 or 60..100; it carries the fixed message |
| MedicalWorkflow.IgnoredReadings | src/hooks/useMedicalWorkflow.ts:38-41 | diastolic pressure, oxygen saturation, respiration, weight, height and BMI never change the outcome |
| MedicalWorkflow.SeizureRule | src/hooks/useMedicalWorkflow.ts:49-57 | the seizure history is required exactly for an epileptic beneficiary, the error is raised exactly when the last-seizure date is then missing or empty, and the diagnosis never matters |
| MedicalWorkflow.IsolationRule | src/hooks/useMedicalWorkflow.ts:60-63 | isolation is recommended exactly for a temperature above 38, with exactly the one warning then and none otherwise |
| MedicalWorkflow.IsolationNeverBlocks | src/hooks/useMedicalWorkflow.ts:43-66 | with a comment written and the beneficiary not epileptic, every reading is valid, a fever included |
| MedicalWorkflow.FeverWithoutComment | src/hooks/useMedicalWorkflow.ts:37-63 | 39.1 degrees without a comment is invalid through the checkup rule alone, with isolation recommended and one warning |
| MedicalWorkflow.EpilepticWithoutDate | src/hooks/useMedicalWorkflow.ts:49-57 | an epileptic beneficiary without a last-seizure date is invalid and flagged for the seizure history, whatever the diagnosis "Other" suggests |
| MedicalWorkflow.WorkflowHook.constructor | src/hooks/useMedicalWorkflow.ts:19-24 | the hook starts from the clean initial result |
| MedicalWorkflow.WorkflowHook.Refresh | src/hooks/useMedicalWorkflow.ts:26-28 | after an input change the hook holds the validation outcome of the new inputs |
| MedicalWorkflow.InitialResultIsClean | src/hooks/useMedicalWorkflow.ts:19-24 | the initial result is valid with nothing raised, the same as evaluating an empty profile without readings |
| NewAdmissionForm.InitialFormIsValid | src/components/NewAdmissionForm.tsx:14-35 | the untouched form (diagnosis "Other", not epileptic, no readings, no comment) validates with nothing raised |
| NewAdmissionForm.BuildProfile | src/components/NewAdmissionForm.tsx:52-67 | the saved profile carries the form's beneficiary, diagnosis, epilepsy flag, readings and history, the given id and time, empty secondary diagnoses and medications, both infection flags equal to the isolation recommendation, and a pending vaccination status |
| NewAdmissionForm.AdmissionForm.constructor | src/components/NewAdmissionForm.tsx:14-28 | the form starts on page 1 with no beneficiary, no readings, the empty history, diagnosis "Other", not epileptic, no comment, and a valid validation |
| NewAdmissionForm.AdmissionForm.Next | src/components/NewAdmissionForm.tsx:37-39 | the page advances by one up to page 3 and the fields stay as they were |
| NewAdmissionForm.AdmissionForm.Back | src/components/NewAdmissionForm.tsx:41-43 | the page goes back by one down to page 1 and the fields stay as they were |
| NewAdmissionForm.AdmissionForm.Edit | src/components/NewAdmissionForm.tsx:85-240 | a field edit sets the edited fields and keeps the page |
| NewAdmissionForm.AdmissionForm.SetLastSeizureDate | src/components/NewAdmissionForm.tsx:230-233 | the last-seizure date is set, the other seizure fields and the rest of the history are kept, and nothing else changes |
| NewAdmissionForm.AdmissionForm.Submit | src/components/NewAdmissionForm.tsx:45-69 | an invalid form saves nothing; a valid one yields the profile built from its fields, with isolation recommended exactly for a fever |
| NewAdmissionForm.ValidFormMeetsRules | src/components/NewAdmissionForm.tsx:301 | a form that can be saved has a last-seizure date when the beneficiary is epileptic and a comment when a reading is abnormal |
| RehabPlanBuilder.SuggestionOf | src/components/rehab/RehabPlanBuilder.tsx:28-61 | each rule suggests its own goal type: physiotherapy for the motor rule, medical for speech, social for the device and education rules |
| RehabPlanBuilder.SuggestionOfInjective | src/components/rehab/RehabPlanBuilder.tsx:28-61 | no two rules share a suggestion |
| RehabPlanBuilder.FiredAmongSpec | src/components/rehab/RehabPlanBuilder.tsx:26-63 | the fired suggestions are at most one per rule, are exactly the suggestions of the rules that fire, and keep the rules' order |
| RehabPlanBuilder.Suggestions | src/components/rehab/RehabPlanBuilder.tsx:28-61 | one suggestion per rule, in rule order |
| RehabPlanBuilder.SmartSuggestions | src/components/rehab/RehabPlanBuilder.tsx:22-65 | the chain of rule tests returns the rules' fired suggestions in order, and none without a beneficiary |
| RehabPlanBuilder.FiredCons | src/components/rehab/RehabPlanBuilder.tsx:28-61 | the first rule's contribution comes before those of the rest |
| RehabPlanBuilder.FiredUnrolled | src/components/rehab/RehabPlanBuilder.tsx:28-63 | the result is the motor, speech, device and education contributions concatenated in that order |
| RehabPlanBuilder.SuggestionsBounded | src/components/rehab/RehabPlanBuilder.tsx:24-63 | no beneficiary gives no suggestions; otherwise at most four, in rule order |
| RehabPlanBuilder.SuggestedIffFires | src/components/rehab/RehabPlanBuilder.tsx:28-61 | a rule's suggestion is offered exactly when the rule's condition holds for the beneficiary |
| RehabPlanBuilder.InitialPlanShape | src/components/rehab/RehabPlanBuilder.tsx:76-84 | a new plan is a draft with no goals and three pending sign-offs (doctor, social worker, director), the director's button disabled |
| RehabPlanBuilder.WithContext | src/components/rehab/RehabPlanBuilder.tsx:89-100 | selecting fills the plan's beneficiary id and name, medical and social context (risk medium), clears the goals and keeps status and sign-offs |
| RehabPlanBuilder.NewGoal | src/components/rehab/RehabPlanBuilder.tsx:108-117 | a new goal has id "goal-" plus the stamp, progress 0, pending status, empty measure and date, the suggestion's type and title or medical and "", and the user's name or "Unassigned" |
| RehabPlanBuilder.Patched | src/components/rehab/RehabPlanBuilder.tsx:132 | an update overwrites exactly the fields it supplies and keeps the id and the others |
| RehabPlanBuilder.UpdateGoals | src/components/rehab/RehabPlanBuilder.tsx:129-134 | updating keeps the length and every id, patches the goals with the id and leaves the others untouched |
| RehabPlanBuilder.RemoveGoals | src/components/rehab/RehabPlanBuilder.tsx:136-140 | removal keeps, in order, exactly the goals whose id differs |
| RehabPlanBuilder.RemoveAfterUpdate | src/components/rehab/RehabPlanBuilder.tsx:129-140 | updating and then removing the same id equals just removing it |
| RehabPlanBuilder.RemoveFreshGoal | src/components/rehab/RehabPlanBuilder.tsx:102-140 | removing a just-added goal with a fresh id restores the previous goals |
| RehabPlanBuilder.PermittedIff | src/components/rehab/RehabPlanBuilder.tsx:146-147 | a sign-off is allowed exactly to the holder of that role or the administrator; a nurse may sign none |
| RehabPlanBuilder.ApproveRole | src/components/rehab/RehabPlanBuilder.tsx:152-159 | the row of the role becomes approved with the user's name and the time, and every other row stays unchanged |
| RehabPlanBuilder.DirectorButtonNeedsTeam | src/components/rehab/RehabPlanBuilder.tsx:347 | the director's button is enabled only when every other sign-off is approved |
| RehabPlanBuilder.InitialPlanKeepsGate | src/components/rehab/RehabPlanBuilder.tsx:76-84 | a fresh plan meets the governance rule that a signed director row comes only with the other two rows signed |
| RehabPlanBuilder.EnabledPressKeepsGate | src/components/rehab/RehabPlanBuilder.tsx:336-347 | signing any row through an enabled button keeps the governance rule |
| RehabPlanBuilder.UnguardedApproveBreaksGate | src/components/rehab/RehabPlanBuilder.tsx:144-161 | the approve handler alone does not keep the rule: a permitted director signing the sample plan before the social worker breaks it, which only the disabled button prevents |
| RehabPlanBuilder.ApprovedRowIsFinal | src/components/rehab/RehabPlanBuilder.tsx:336-351 | once a row is approved it offers no button |
| RehabPlanBuilder.SamplePlanTwoBlocked | src/data/rehabPlans.ts:47-79 | on the second sample plan the doctor has signed and the director's button is disabled |
| RehabPlanBuilder.SamplePlanTwoGovernance | src/data/rehabPlans.ts:74-78 | after the social worker signs the second sample plan, the director's button is enabled and the director's sign-off completes all three |
| RehabPlanBuilder.SaveNotice | src/components/rehab/RehabPlanBuilder.tsx:163-170 | saving reports an error exactly when the plan has no beneficiary, and success otherwise |
| RehabPlanBuilder.PlanBuilder.constructor | src/components/rehab/RehabPlanBuilder.tsx:72-84 | the builder starts with no selection and the draft plan |
| RehabPlanBuilder.PlanBuilder.SelectBeneficiary | src/components/rehab/RehabPlanBuilder.tsx:72-100 | a changed choice of a known beneficiary loads its context and clears the goals; otherwise the plan is kept |
| RehabPlanBuilder.PlanBuilder.AddGoal | src/components/rehab/RehabPlanBuilder.tsx:102-127 | without a selection the plan is kept and an error is shown; otherwise the new goal is appended and a success notice is shown for a suggestion |
| RehabPlanBuilder.PlanBuilder.UpdateGoal | src/components/rehab/RehabPlanBuilder.tsx:129-134 | only the goals change, as by the update |
| RehabPlanBuilder.PlanBuilder.RemoveGoal | src/components/rehab/RehabPlanBuilder.tsx:136-142 | only the goals change, as by the removal, with an info notice |
| RehabPlanBuilder.PlanBuilder.Approve | src/components/rehab/RehabPlanBuilder.tsx:144-161 | an unpermitted user changes nothing and gets an error naming the role; a permitted one signs that role's row |
| RehabPlanBuilder.PlanBuilder.PressApprovalButton | src/components/rehab/RehabPlanBuilder.tsx:336-350 | a click on a row without an enabled button does nothing; otherwise it runs the approve handler for that row's role; every click keeps the governance rule |
| RehabPlanBuilder.PlanBuilder.Save | src/components/rehab/RehabPlanBuilder.tsx:163-170 | the save button changes nothing and reports the save notice |

## Left out

- Rendering: markup, styling, icons, colours, labels and modals are not modelled. Where a rule lives in the markup, it is modelled as a predicate: a disabled button, a shown control, a highlighted row or a colour band.
- The application shell's `currentView` and `searchTerm` state cells (src/components/App.tsx:33,35) are not fields of `AppState.App`: the first only chooses the visible page, and the second holds the search text that the beneficiary list receives, which is the `term` parameter of `BeneficiaryListPanel.FilteredBeneficiaries`. No saved record depends on either.
- Toasts, `alert` and navigation are not performed. Handlers return the toast they would show, or an `Option` of it. The timed removal of toasts is left out, and so is the social-research wizard's delayed navigation after its save.
- Browser side effects are left out: the CSV download through an anchor element, `encodeURI`, `window.print` and key listeners. Only the CSV text is modelled.
- Clocks and id sources (`Date.now`, `new Date().toISOString()`) are parameters (`stamp`, `now`, `today`). The rehabilitation plan's approve handler reads the clock once per matching row; since each role has exactly one row, one `now` per sign-off gives the same result. The leave request's create handler reads the clock twice, for the request date and for the history entry; `LeaveRequestFlow.NewRequest` uses one `now` for both, so the two readings never differ in the model.
- Library functions with locale behaviour are function parameters: `toLowerCase` is `lower`, and `new Date(x).getTime()` is `time`.
- IEEE floating point is not modelled. `Math.round` of a percentage is exact round-half-up over the integers, and a division the source does not guard gives `None` where the source would show `NaN`.
- A vital sign typed as text and parsed to `NaN` is the same as a missing one (`None`). A `NaN` stored as a number is not modelled separately.
- The iteration order of `Object.keys` is modelled as first-insertion order. JavaScript puts integer-like keys first, and the diagnosis and area keys are not integer-like.
- React effect timing: effects (loading a beneficiary's context into the plan, the wizard's auto-fill, the admission form's validation) are modelled as running at the end of the handler that triggers them. In the source, the admission form's submit handler reads the validation of the previous render.
- Module-level data are parameters of the members that read them: the beneficiary roster, the mock plans, the mock assets and tickets, the quality mock data, and the initial visit logs and inventory of the application state.
- The saved forms of the application state (case study, social research and the rest) are the opaque `FormRecord`; only their position in their lists is modelled.
- StrategicDashboard, the provider plumbing of the data and application contexts, and the theme toggle are not part of this model. StrategicDashboard draws its data at random, and the rest only pass state through.
- Of the rehabilitation-plan fixtures, only `plan_2` is modelled.
- SustainabilityReport.AssetUtilizationRate: requires every asset value to be non-negative, which the source does not check. With negative values, the rate can fall outside 0 to 100.
- DashboardPanel.TopDiagnosesAreMostFrequent: states the length, the order, that every entry comes from the input, and that nothing left out ranks higher. The order among equal counts (a stable sort in the source) is not stated.
- DashboardPanel.RecentEnrollmentsAreNewest: the same as for the top diagnoses. The model works on values, so the source's copy before sorting (the input list is not reordered) holds trivially.
- LeaveRequestFlow.NewRequest: a draft field that is undefined is stored as `""` (and an undefined leave type as a home visit). After a create, the source clears the draft to `{}`, so a second request created without editing would store `undefined` fields.
- SocialResearchWizard.Wizard.Next: does not require the button to be enabled. The disabled state is the separate predicate `NextDisabled`, as in the source, where only the button guards the handler.
- The mock risk `r2` (src/data/quality.ts:17-27) is stored with score 10 and level medium, although the register's banding puts a score of 10 in the high band. The fixture is modelled as written, and `RiskRegister.MockRiskLevels` records the disagreement.

## Findings

| source | as written | input that shows it | evidently intended | confidence | as-written member | corrected member |
|---|---|---|---|---|---|---|
| src/components/quality/DigitalAuditTool.tsx:24-104 | the completion button is enabled when the rounded progress is 100 (and when it is `NaN`) | 200 findings of which 199 carry evidence round to a progress of 100, so the audit can be completed with one finding unevidenced; an audit with no findings has progress `NaN`, which does not disable the button | completion only when every finding carries evidence | not executed | DigitalAuditTool.RoundedGateAdmitsMissingEvidence | DigitalAuditTool.CompletionAllowedIff |
| src/pages/QualityDashboard.tsx:31-36 | the compliance buttons (DigitalAuditTool.tsx:66 and :73) pass no evidence, and the update handler overwrites `evidence` with it | on the demonstration audit, both findings carry evidence (progress 100); marking finding 1 compliant erases its evidence, and the progress drops to 50 | a compliance click keeps the finding's evidence, as the evidence input keeps its compliance | not executed | DigitalAuditTool.ComplianceClickWipesEvidence | DigitalAuditTool.ComplianceKeepingEvidenceKeepsProgress |
