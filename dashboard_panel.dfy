// The dashboard's headline figures, its diagnosis distribution with the top
// five diagnoses, and the five most recent enrolments.

module DashboardPanel {
  import opened Common
  import opened Records

  /** The label counted for a beneficiary with no diagnosis ("unspecified"). */
  const Unspecified := "غير محدد"

  /** The fixed number of beneficiaries taken to be out on a visit. */
  const ExternalVisits := 3

  /** Items with fewer units than this count as low on stock. */
  const LowStockThreshold := 10

  // ---------------------------------------------------------------------
  // Headline figures

  function IsActive(): Beneficiary -> bool {
    (b: Beneficiary) => b.status != Some(ExitStatus)
  }

  function HasExited(): Beneficiary -> bool {
    (b: Beneficiary) => b.status == Some(ExitStatus)
  }

  /** Beneficiaries whose status is not "exit"; a missing status counts as active. */
  function ActiveCases(bs: seq<Beneficiary>): (n: nat)
    ensures n <= |bs|
  {
    |Filter(IsActive(), bs)|
  }

  /** The active cases are everybody but those who have left. */
  lemma ActiveCasesExcludeExits(bs: seq<Beneficiary>)
    ensures ActiveCases(bs) == |bs| - |Filter(HasExited(), bs)|
    ensures (forall b :: b in bs ==> b.status != Some(ExitStatus)) ==> ActiveCases(bs) == |bs|
  {
    FilterComplement(IsActive(), HasExited(), bs);
    if forall b :: b in bs ==> b.status != Some(ExitStatus) {
      FilterAll(IsActive(), bs);
    }
  }

  function IsLowStock(): InventoryItem -> bool {
    (i: InventoryItem) => i.quantity < LowStockThreshold
  }

  /** The number of inventory lines holding fewer than ten units. */
  function LowStockItems(inventory: seq<InventoryItem>): (n: nat)
    ensures n <= |inventory|
  {
    |Filter(IsLowStock(), inventory)|
  }

  /** A line is counted exactly when it holds fewer than ten units. */
  lemma LowStockCountsShortLines(inventory: seq<InventoryItem>)
    ensures (forall i :: i in inventory ==> i.quantity >= LowStockThreshold) ==> LowStockItems(inventory) == 0
    ensures (forall i :: i in inventory ==> i.quantity < LowStockThreshold) ==> LowStockItems(inventory) == |inventory|
  {
    if forall i :: i in inventory ==> i.quantity >= LowStockThreshold {
      FilterNone(IsLowStock(), inventory);
    }
    if forall i :: i in inventory ==> i.quantity < LowStockThreshold {
      FilterAll(IsLowStock(), inventory);
    }
  }

  /** "Present in the centre": the active cases less the fixed external visits. */
  function PresentNow(bs: seq<Beneficiary>): (n: int)
    ensures n <= |bs| - ExternalVisits
    ensures n < 0 <==> ActiveCases(bs) < ExternalVisits
  {
    ActiveCases(bs) - ExternalVisits
  }

  // ---------------------------------------------------------------------
  // Diagnosis distribution

  /** The key a beneficiary is counted under: the diagnosis, or "unspecified" when it is empty. */
  function DiagnosisOf(): Beneficiary -> string {
    (b: Beneficiary) => if b.medicalDiagnosis == "" then Unspecified else b.medicalDiagnosis
  }

  /** The number of beneficiaries counted under `d`. */
  function DiagnosisCount(bs: seq<Beneficiary>, d: string): nat {
    |Filter(WithKey(DiagnosisOf(), d), bs)|
  }

  /** An entry of the distribution, as `Object.entries` yields it. */
  datatype Entry = Entry(diagnosis: string, count: int)

  function EntryCount(): Entry -> int {
    (e: Entry) => e.count
  }

  /** The entries of the counts in the order their keys were created. */
  function EntriesOf(counts: map<string, int>, keys: seq<string>): (r: seq<Entry>)
    requires forall k :: 0 <= k < |keys| ==> keys[k] in counts
    ensures |r| == |keys|
    ensures forall k :: 0 <= k < |keys| ==> r[k] == Entry(keys[k], counts[keys[k]])
  {
    seq(|keys|, k requires 0 <= k < |keys| => Entry(keys[k], counts[keys[k]]))
  }

  /** The distribution stated directly: each diagnosis in first-seen order, with its count. */
  function DistributionEntries(bs: seq<Beneficiary>): seq<Entry> {
    var ks := KeysInOrder(DiagnosisOf(), bs);
    seq(|ks|, k requires 0 <= k < |ks| => Entry(ks[k], DiagnosisCount(bs, ks[k])))
  }

  /** The state of the reduce after the first `i` beneficiaries. */
  ghost predicate Tallied(done: seq<Beneficiary>, counts: map<string, int>, keys: seq<string>) {
    keys == KeysInOrder(DiagnosisOf(), done) &&
    (forall d :: d in counts <==> d in keys) &&
    (forall d :: d in counts ==> counts[d] == DiagnosisCount(done, d))
  }

  /**
   * The reduce: one pass that adds one to the beneficiary's key, creating it
   * at zero when it is new. Its result lists every diagnosis once, in
   * first-seen order, with the number of beneficiaries counted under it.
   */
  method DiagnosisDistribution(bs: seq<Beneficiary>) returns (counts: map<string, int>, keys: seq<string>)
    ensures forall d :: d in counts <==> d in keys
    ensures forall d :: d in counts ==> counts[d] == DiagnosisCount(bs, d)
    ensures keys == KeysInOrder(DiagnosisOf(), bs)
    ensures EntriesOf(counts, keys) == DistributionEntries(bs)
  {
    counts := map[];
    keys := [];
    for i := 0 to |bs|
      invariant Tallied(bs[..i], counts, keys)
    {
      var d := DiagnosisOf()(bs[i]);
      var prior := 0;
      var listed := keys;
      if d in counts {
        prior := counts[d];
      } else {
        listed := keys + [d];
      }
      TallyStepAt(bs, i, counts, keys, counts[d := prior + 1], listed);
      counts, keys := counts[d := prior + 1], listed;
    }
    assert bs[..|bs|] == bs;
    TalliedEntries(bs, counts, keys);
  }

  /** One step of the reduce, on the `i`-th beneficiary, extends the tally by it. */
  lemma TallyStepAt(bs: seq<Beneficiary>, i: nat, before: map<string, int>, listed: seq<string>,
                    counts: map<string, int>, keys: seq<string>)
    requires i < |bs| && Tallied(bs[..i], before, listed)
    requires var d := DiagnosisOf()(bs[i]);
      counts == before[d := (if d in before then before[d] else 0) + 1] &&
      keys == if d in before then listed else listed + [d]
    ensures Tallied(bs[..i + 1], counts, keys)
  {
    var done, b := bs[..i], bs[i];
    assert bs[..i + 1] == done + [b];
    TallyStep(done, b, DiagnosisOf()(b), before, listed, counts, keys);
  }

  /** A finished tally reads out as the distribution. */
  lemma TalliedEntries(bs: seq<Beneficiary>, counts: map<string, int>, keys: seq<string>)
    requires Tallied(bs, counts, keys)
    ensures forall k :: 0 <= k < |keys| ==> keys[k] in counts
    ensures EntriesOf(counts, keys) == DistributionEntries(bs)
  {
    assert forall k :: 0 <= k < |keys| ==> keys[k] in counts;
    var r := EntriesOf(counts, keys);
    var es := DistributionEntries(bs);
    assert |r| == |es|;
    forall k | 0 <= k < |r|
      ensures r[k] == es[k]
    {
      assert counts[keys[k]] == DiagnosisCount(bs, keys[k]);
    }
  }

  /** One step of the reduce keeps the tally. */
  lemma TallyStep(done: seq<Beneficiary>, b: Beneficiary, d: string, before: map<string, int>, listed: seq<string>,
                  counts: map<string, int>, keys: seq<string>)
    requires Tallied(done, before, listed) && d == DiagnosisOf()(b)
    requires counts == before[d := (if d in before then before[d] else 0) + 1]
    requires keys == if d in before then listed else listed + [d]
    ensures Tallied(done + [b], counts, keys)
  {
    KeysSnoc(DiagnosisOf(), done, b);
    KeysInOrderListed(DiagnosisOf(), done);
    forall e | e in counts
      ensures counts[e] == DiagnosisCount(done + [b], e)
    {
      GroupSnoc(DiagnosisOf(), done, b, e);
    }
  }

  /** Every diagnosis appears once. */
  lemma DistributionDistinct(bs: seq<Beneficiary>)
    ensures var es := DistributionEntries(bs);
      forall i, j :: 0 <= i < j < |es| ==> es[i].diagnosis != es[j].diagnosis
  {
    KeysInOrderListed(DiagnosisOf(), bs);
  }

  /** A beneficiary's diagnosis is always among the entries. */
  lemma DistributionListsEveryone(bs: seq<Beneficiary>, b: Beneficiary)
    requires b in bs
    ensures var es := DistributionEntries(bs);
      exists k :: 0 <= k < |es| && es[k].diagnosis == DiagnosisOf()(b)
  {
    var ks := KeysInOrder(DiagnosisOf(), bs);
    var d := DiagnosisOf()(b);
    assert |Filter(WithKey(DiagnosisOf(), d), bs)| > 0 by {
      assert b in Filter(WithKey(DiagnosisOf(), d), bs);
    }
    assert d in ks by {
      KeysInOrderListed(DiagnosisOf(), bs);
    }
    var k :| 0 <= k < |ks| && ks[k] == d;
    assert DistributionEntries(bs)[k].diagnosis == d;
  }

  /** Every entry counts at least one beneficiary. */
  lemma DistributionCountsPositive(bs: seq<Beneficiary>)
    ensures var es := DistributionEntries(bs);
      forall k :: 0 <= k < |es| ==> es[k].count >= 1
  {
    var ks := KeysInOrder(DiagnosisOf(), bs);
    forall k | 0 <= k < |ks|
      ensures DiagnosisCount(bs, ks[k]) >= 1
    {
      assert ks[k] in ks;
      KeysInOrderListed(DiagnosisOf(), bs);
    }
  }

  /** The counts add up to the number of beneficiaries. */
  lemma DistributionSumsToTotal(bs: seq<Beneficiary>)
    ensures SumOf(EntryCount(), DistributionEntries(bs)) == |bs|
  {
    var ks := KeysInOrder(DiagnosisOf(), bs);
    var es := DistributionEntries(bs);
    assert forall k :: 0 <= k < |es| ==> EntryCount()(es[k]) == CountWithKey(DiagnosisOf(), bs)(ks[k]);
    SumCorresponding(EntryCount(), es, CountWithKey(DiagnosisOf(), bs), ks);
    KeyCountsSum(DiagnosisOf(), bs);
  }

  /** The five most frequent diagnoses, most frequent first. */
  function TopDiagnoses(entries: seq<Entry>): seq<Entry> {
    Take(SortDesc(EntryCount(), entries), 5)
  }

  /**
   * At most five entries, in non-increasing count, each from the
   * distribution, and none left out counts more than one shown.
   */
  lemma TopDiagnosesAreMostFrequent(es: seq<Entry>)
    ensures var top := TopDiagnoses(es);
      (|top| == if |es| < 5 then |es| else 5) &&
      (forall i, j :: 0 <= i < j < |top| ==> top[i].count >= top[j].count) &&
      (forall e :: e in top ==> e in es) &&
      (forall e, j :: e in es && e !in top && 0 <= j < |top| ==> e.count <= top[j].count)
  {
    var top := TopDiagnoses(es);
    TopOfSorted(EntryCount(), es, 5);
    forall i, j | 0 <= i < j < |top|
      ensures top[i].count >= top[j].count
    {
      assert EntryCount()(top[i]) >= EntryCount()(top[j]);
    }
    forall e, j | e in es && e !in top && 0 <= j < |top|
      ensures e.count <= top[j].count
    {
      assert EntryCount()(e) <= EntryCount()(top[j]);
    }
  }

  // ---------------------------------------------------------------------
  // Recent enrolments

  /** The enrolment time of a beneficiary; `time` stands for `new Date(d).getTime()`. */
  function EnrolledAt(time: string -> int): Beneficiary -> int {
    (b: Beneficiary) => time(b.enrollmentDate)
  }

  /** A sorted copy of the list, newest enrolment first, cut to five. */
  function RecentEnrollments(bs: seq<Beneficiary>, time: string -> int): seq<Beneficiary> {
    Take(SortDesc(EnrolledAt(time), bs), 5)
  }

  /**
   * At most five beneficiaries, newest first, each from the list, and nobody
   * left out enrolled later than anybody shown.
   */
  lemma RecentEnrollmentsAreNewest(bs: seq<Beneficiary>, time: string -> int)
    ensures var r := RecentEnrollments(bs, time);
      (|r| == if |bs| < 5 then |bs| else 5) &&
      (forall i, j :: 0 <= i < j < |r| ==> time(r[i].enrollmentDate) >= time(r[j].enrollmentDate)) &&
      (forall b :: b in r ==> b in bs) &&
      (forall b, j :: b in bs && b !in r && 0 <= j < |r| ==> time(b.enrollmentDate) <= time(r[j].enrollmentDate))
  {
    var r := RecentEnrollments(bs, time);
    var key := EnrolledAt(time);
    TopOfSorted(key, bs, 5);
    forall i, j | 0 <= i < j < |r|
      ensures time(r[i].enrollmentDate) >= time(r[j].enrollmentDate)
    {
      assert key(r[i]) >= key(r[j]);
    }
    forall b, j | b in bs && b !in r && 0 <= j < |r|
      ensures time(b.enrollmentDate) <= time(r[j].enrollmentDate)
    {
      assert key(b) <= key(r[j]);
    }
  }
}
