// The digital audit checklist: findings grouped by area, the evidence
// progress, the completion gate, the area accordion and the edits the
// checklist sends back to the dashboard.

module DigitalAuditTool {
  import opened Common
  import opened QualityTypes
  import opened QualityDashboard

  function AreaOf(): AuditFinding -> string {
    (f: AuditFinding) => f.area
  }

  /** The findings of one area, in checklist order. */
  function GroupOf(fs: seq<AuditFinding>, a: string): (g: seq<AuditFinding>)
    ensures forall f :: f in g <==> f in fs && f.area == a
    ensures IsSubsequence(g, fs)
  {
    FilterIsSubsequence(WithKey(AreaOf(), a), fs);
    Filter(WithKey(AreaOf(), a), fs)
  }

  /** The areas in the order their first finding appears. */
  function AreasOf(fs: seq<AuditFinding>): seq<string> {
    KeysInOrder(AreaOf(), fs)
  }

  /**
   * An area is listed exactly when it has a finding, no area is listed
   * twice, and the group sizes add up to the number of findings.
   */
  lemma AreasListGroups(fs: seq<AuditFinding>)
    ensures forall a :: a in AreasOf(fs) <==> |GroupOf(fs, a)| > 0
    ensures forall i, j :: 0 <= i < j < |AreasOf(fs)| ==> AreasOf(fs)[i] != AreasOf(fs)[j]
    ensures SumOf(CountWithKey(AreaOf(), fs), AreasOf(fs)) == |fs|
  {
    KeysInOrderListed(AreaOf(), fs);
    KeyCountsSum(AreaOf(), fs);
  }

  /** A finding lies in the group of its own area and in no other. */
  lemma FindingInOwnGroup(fs: seq<AuditFinding>, f: AuditFinding, a: string)
    requires f in fs
    ensures f in GroupOf(fs, a) <==> a == f.area
  {
  }

  /**
   * The accumulator of the checklist's reduce: one list per area, each filled
   * in checklist order, and the areas in the order their keys were created.
   */
  method GroupByArea(findings: seq<AuditFinding>) returns (groups: map<string, seq<AuditFinding>>, areas: seq<string>)
    ensures areas == AreasOf(findings)
    ensures forall a :: a in groups <==> a in areas
    ensures forall a :: a in groups ==> groups[a] == GroupOf(findings, a)
  {
    groups := map[];
    areas := [];
    for i := 0 to |findings|
      invariant Grouped(findings[..i], groups, areas)
    {
      var f := findings[i];
      assert findings[..i + 1] == findings[..i] + [f];
      ghost var before, listed := groups, areas;
      if f.area !in groups {
        groups := groups[f.area := []];
        areas := areas + [f.area];
      }
      ghost var created := groups;
      groups := groups[f.area := groups[f.area] + [f]];
      GroupingStep(findings[..i], f, before, listed, created, groups, areas);
    }
    assert findings[..|findings|] == findings;
  }

  /** The accumulator after the findings `pre`. */
  ghost predicate Grouped(pre: seq<AuditFinding>, groups: map<string, seq<AuditFinding>>, areas: seq<string>) {
    areas == AreasOf(pre) &&
    (forall a :: a in groups <==> a in areas) &&
    (forall a :: a in groups ==> groups[a] == GroupOf(pre, a))
  }

  /** One turn of the reduce: create the area's list if it is missing, then push. */
  lemma GroupingStep(pre: seq<AuditFinding>, f: AuditFinding,
                     groups: map<string, seq<AuditFinding>>, areas: seq<string>,
                     created: map<string, seq<AuditFinding>>,
                     groups': map<string, seq<AuditFinding>>, areas': seq<string>)
    requires Grouped(pre, groups, areas)
    requires f.area in groups ==> created == groups && areas' == areas
    requires f.area !in groups ==> created == groups[f.area := []] && areas' == areas + [f.area]
    requires f.area in created && groups' == created[f.area := created[f.area] + [f]]
    ensures Grouped(pre + [f], groups', areas')
  {
    var post := pre + [f];
    KeysSnoc(AreaOf(), pre, f);
    if f.area !in groups {
      AreasListGroups(pre);
      assert GroupOf(pre, f.area) == [];
    }
    forall a | a in groups'
      ensures groups'[a] == GroupOf(post, a)
    {
      GroupSnoc(AreaOf(), pre, f, a);
    }
  }

  function Evidenced(): AuditFinding -> bool {
    (f: AuditFinding) => Truthy(f.evidence)
  }

  /**
   * The share of findings with a non-empty evidence, as a rounded
   * percentage; none for an audit without findings, where the source
   * divides zero by zero.
   */
  function Progress(fs: seq<AuditFinding>): (p: Option<int>)
    ensures p.None? <==> fs == []
    ensures p.Some? ==> 0 <= p.value <= 100
  {
    if fs == [] then None
    else
      RoundPercentRange(|Filter(Evidenced(), fs)|, |fs|);
      Some(RoundPercent(|Filter(Evidenced(), fs)|, |fs|))
  }

  /** Full evidence is 100 percent; no evidence is 0 percent. */
  lemma ProgressEnds(fs: seq<AuditFinding>)
    requires fs != []
    ensures (forall k :: 0 <= k < |fs| ==> Truthy(fs[k].evidence)) ==> Progress(fs) == Some(100)
    ensures (forall k :: 0 <= k < |fs| ==> !Truthy(fs[k].evidence)) ==> Progress(fs) == Some(0)
  {
    if forall k :: 0 <= k < |fs| ==> Truthy(fs[k].evidence) {
      FilterAll(Evidenced(), fs);
      RoundPercentRange(|fs|, |fs|);
    }
    if forall k :: 0 <= k < |fs| ==> !Truthy(fs[k].evidence) {
      FilterNone(Evidenced(), fs);
      RoundPercentRange(0, |fs|);
    }
  }

  /**
   * The completion button as written: disabled while the rounded progress is
   * below 100 (a missing progress compares false, so it is enabled).
   */
  predicate CompletionDisabled(fs: seq<AuditFinding>) {
    var p := Progress(fs);
    p.Some? && p.value < 100
  }

  /**
   * An audit of 200 or more findings where exactly one lacks evidence rounds
   * up to 100 percent, so the gate as written lets it be completed.
   */
  lemma RoundedGateAdmitsMissingEvidence(fs: seq<AuditFinding>)
    requires |fs| >= 200 && |Filter(Evidenced(), fs)| == |fs| - 1
    ensures Progress(fs) == Some(100) && !CompletionDisabled(fs)
    ensures !FullyEvidenced(fs)
  {
    NearlyAllRoundsUp(|fs|);
    if FullyEvidenced(fs) {
      assert forall x :: x in fs ==> Evidenced()(x);
      FilterAll(Evidenced(), fs);
    }
  }

  /** n - 1 out of n, for n of at least 200, is at least 99.5 percent. */
  lemma NearlyAllRoundsUp(n: int)
    requires n >= 200
    ensures RoundPercent(n - 1, n) == 100
  {
    var a := 200 * (n - 1) + n;
    assert 2 * n * 100 <= a < 2 * n * 100 + 2 * n;
    QuotientOf(a, 2 * n, 100);
  }

  /** Every finding carries a non-empty evidence. */
  predicate FullyEvidenced(fs: seq<AuditFinding>) {
    forall k :: 0 <= k < |fs| ==> Truthy(fs[k].evidence)
  }

  /** The completion gate on the evidence count itself rather than its rounding. */
  predicate CompletionAllowed(fs: seq<AuditFinding>) {
    |Filter(Evidenced(), fs)| == |fs|
  }

  /**
   * The exact gate opens precisely when every finding is evidenced, and
   * wherever it opens the gate as written is open too.
   */
  lemma CompletionAllowedIff(fs: seq<AuditFinding>)
    ensures CompletionAllowed(fs) <==> FullyEvidenced(fs)
    ensures CompletionAllowed(fs) ==> !CompletionDisabled(fs)
  {
    if CompletionAllowed(fs) {
      FilterFull(Evidenced(), fs);
      assert forall k :: 0 <= k < |fs| ==> Evidenced()(fs[k]);
    }
    if FullyEvidenced(fs) {
      assert forall x :: x in fs ==> Evidenced()(x);
      FilterAll(Evidenced(), fs);
    }
    if CompletionAllowed(fs) && fs != [] {
      RoundPercentRange(|fs|, |fs|);
    }
  }

  /** An edit the checklist sends: finding id, compliance, optional evidence. */
  datatype FindingEdit = FindingEdit(id: string, isCompliant: bool, evidence: Option<string>)

  /** A compliance button as written: it sends no evidence. */
  function ComplianceClick(f: AuditFinding, isCompliant: bool): (e: FindingEdit)
    ensures e.id == f.id && e.isCompliant == isCompliant && e.evidence.None?
  {
    FindingEdit(f.id, isCompliant, None)
  }

  /** A compliance button that sends the finding's current evidence along. */
  function ComplianceClickKeepingEvidence(f: AuditFinding, isCompliant: bool): (e: FindingEdit)
    ensures e.id == f.id && e.isCompliant == isCompliant && e.evidence == f.evidence
  {
    FindingEdit(f.id, isCompliant, f.evidence)
  }

  /** Typing evidence keeps the finding's compliance as it is. */
  function EvidenceInput(f: AuditFinding, text: string): (e: FindingEdit)
    ensures e.id == f.id && e.isCompliant == f.isCompliant && e.evidence == Some(text)
  {
    FindingEdit(f.id, f.isCompliant, Some(text))
  }

  /** The dashboard's handling of an edit. */
  function Apply(fs: seq<AuditFinding>, e: FindingEdit): seq<AuditFinding> {
    UpdateFindings(fs, e.id, e.isCompliant, e.evidence)
  }

  /**
   * On the demonstration audit, marking the first finding compliant (which
   * it already is) wipes its evidence and drops the progress from 100 to 50.
   */
  lemma ComplianceClickWipesEvidence()
    ensures Progress(MockAudit.findings) == Some(100)
    ensures Progress(Apply(MockAudit.findings, ComplianceClick(FindingStorageLog, true))) == Some(50)
  {
    MockAuditFullyEvidenced();
    var cleared := FindingStorageLog.(evidence := None);
    var gs := Apply(MockAudit.findings, ComplianceClick(FindingStorageLog, true));
    MockClickResult();
    assert |Filter(Evidenced(), gs)| == 1 by {
      FilterAppend(Evidenced(), [cleared], [FindingPlanSignatures]);
      FilterSingleton(Evidenced(), cleared);
      FilterSingleton(Evidenced(), FindingPlanSignatures);
    }
    assert RoundPercent(1, 2) == 50;
  }

  lemma MockClickResult()
    ensures Apply(MockAudit.findings, ComplianceClick(FindingStorageLog, true))
         == [FindingStorageLog.(evidence := None)] + [FindingPlanSignatures]
  {
    var fs := MockAudit.findings;
    var gs := Apply(fs, ComplianceClick(FindingStorageLog, true));
    assert fs[0].id == "f1" && fs[1].id == "f2";
    assert "f2" != "f1" by {
      assert "f2"[1] != "f1"[1];
    }
    assert |gs| == 2;
    assert gs[0] == FindingStorageLog.(evidence := None);
    assert gs[1] == FindingPlanSignatures;
  }

  lemma MockAuditFullyEvidenced()
    ensures Progress(MockAudit.findings) == Some(100)
  {
    var fs := MockAudit.findings;
    assert fs == [FindingStorageLog, FindingPlanSignatures];
    assert Truthy(fs[0].evidence) && Truthy(fs[1].evidence);
    ProgressEnds(fs);
  }

  /**
   * A compliance click that forwards the evidence changes only the
   * compliance of the matching findings and never moves the progress.
   */
  lemma ComplianceKeepingEvidenceKeepsProgress(fs: seq<AuditFinding>, k: int, c: bool)
    requires 0 <= k < |fs|
    requires forall i, j :: 0 <= i < j < |fs| ==> fs[i].id != fs[j].id
    ensures var gs := Apply(fs, ComplianceClickKeepingEvidence(fs[k], c));
      Progress(gs) == Progress(fs) && gs[k].isCompliant == c && gs[k].evidence == fs[k].evidence
  {
    var gs := Apply(fs, ComplianceClickKeepingEvidence(fs[k], c));
    forall j | 0 <= j < |fs|
      ensures Evidenced()(fs[j]) <==> Evidenced()(gs[j])
    {
      if fs[j].id == fs[k].id {
        assert gs[j].evidence == fs[k].evidence;
      }
    }
    FilterCountPointwise(Evidenced(), fs, gs);
  }

  /** Editing the evidence of a finding keeps the compliance of every finding. */
  lemma EvidenceInputKeepsCompliance(fs: seq<AuditFinding>, k: int, text: string)
    requires 0 <= k < |fs|
    requires forall i, j :: 0 <= i < j < |fs| ==> fs[i].id != fs[j].id
    ensures var gs := Apply(fs, EvidenceInput(fs[k], text));
      |gs| == |fs| && gs[k].evidence == Some(text) &&
      forall j :: 0 <= j < |fs| ==> gs[j].isCompliant == fs[j].isCompliant
  {
  }

  /** The area opened by a click on an area header. */
  function NextExpanded(current: Option<string>, clicked: string): (r: Option<string>)
    ensures current == Some(clicked) ==> r.None?
    ensures current != Some(clicked) ==> r == Some(clicked)
  {
    if current == Some(clicked) then None else Some(clicked)
  }

  /** A second click on the same header restores what a first click changed. */
  lemma DoubleClickRestores(current: Option<string>, clicked: string)
    requires current.None? || current == Some(clicked)
    ensures NextExpanded(NextExpanded(current, clicked), clicked) == current
  {
  }

  /** The accordion state of the checklist. */
  class AuditChecklist {
    var expandedArea: Option<string>

    constructor ()
      ensures expandedArea.None?
    {
      expandedArea := None;
    }

    /** Whether an area's findings are shown; at most one area is. */
    predicate Shows(area: string)
      reads this
    {
      expandedArea == Some(area)
    }

    method ClickArea(area: string)
      modifies this
      ensures expandedArea == NextExpanded(old(expandedArea), area)
      ensures old(Shows(area)) ==> forall a :: !Shows(a)
      ensures !old(Shows(area)) ==> forall a :: Shows(a) <==> a == area
    {
      expandedArea := NextExpanded(expandedArea, area);
    }
  }
}
