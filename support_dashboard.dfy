// The support-services dashboard: asset and maintenance-ticket figures.

module SupportDashboard {
  import opened Common
  import opened AssetTypes
  import opened AssetRegistry

  function ValueOf(): FixedAsset -> int {
    (a: FixedAsset) => a.value
  }

  function IsOpenTicket(): MaintenanceTicket -> bool {
    (t: MaintenanceTicket) => t.status == TicketOpen || t.status == TicketInProgress
  }

  function IsClosedOrQueued(): MaintenanceTicket -> bool {
    (t: MaintenanceTicket) => t.status == Assigned || t.status == Resolved
  }

  function IsUrgentTicket(): MaintenanceTicket -> bool {
    (t: MaintenanceTicket) => t.priority == CriticalPriority || t.priority == HighPriority
  }

  datatype SupportFigures = SupportFigures(
    totalAssets: int,
    totalValue: int,
    damagedAssets: int,
    openTickets: int,
    criticalTickets: int)

  /** The dashboard's five figures over the asset and ticket lists. */
  function Figures(assets: seq<FixedAsset>, tickets: seq<MaintenanceTicket>): SupportFigures {
    SupportFigures(
      |assets|,
      SumOf(ValueOf(), assets),
      |Filter(HasCondition(Damaged), assets)|,
      |Filter(IsOpenTicket(), tickets)|,
      |Filter(IsUrgentTicket(), tickets)|)
  }

  /**
   * Damaged assets are among the assets; the open tickets and the assigned or
   * resolved ones split the ticket list between them; with non-negative
   * asset values the total value is non-negative.
   */
  lemma FiguresBounded(assets: seq<FixedAsset>, tickets: seq<MaintenanceTicket>)
    ensures var f := Figures(assets, tickets);
      0 <= f.damagedAssets <= f.totalAssets &&
      f.openTickets + |Filter(IsClosedOrQueued(), tickets)| == |tickets| &&
      0 <= f.criticalTickets <= |tickets|
    ensures (forall k :: 0 <= k < |assets| ==> assets[k].value >= 0) ==> Figures(assets, tickets).totalValue >= 0
  {
    FilterComplement(IsOpenTicket(), IsClosedOrQueued(), tickets);
    if forall k :: 0 <= k < |assets| ==> assets[k].value >= 0 {
      SumNonNegative(ValueOf(), assets);
    }
  }

  /** An assigned or resolved ticket is never counted open. */
  lemma AssignedAndResolvedNotOpen(tickets: seq<MaintenanceTicket>)
    requires forall k :: 0 <= k < |tickets| ==> tickets[k].status == Assigned || tickets[k].status == Resolved
    ensures Figures([], tickets).openTickets == 0
  {
    FilterNone(IsOpenTicket(), tickets);
  }

  /** The figures on the demonstration data. */
  lemma MockSupportFigures()
    ensures Figures(MockAssets, MockTickets) == SupportFigures(5, 151500, 1, 2, 1)
  {
    MockDamagedCount();
    MockAssetValue();
    MockTicketCounts();
  }

  lemma MockDamagedCount()
    ensures Filter(HasCondition(Damaged), MockAssets) == [MockAssets[1]]
    ensures |Filter(HasCondition(Damaged), MockAssets)| == 1
  {
    var a := MockAssets;
    var p := HasCondition(Damaged);
    assert !p(a[0]) && p(a[1]) && !p(a[2]) && !p(a[3]) && !p(a[4]);
    assert a == [a[0]] + ([a[1]] + a[2..]);
    FilterSingleton(p, a[0]);
    FilterSingleton(p, a[1]);
    FilterNone(p, a[2..]);
    FilterAppend(p, [a[1]], a[2..]);
    FilterAppend(p, [a[0]], [a[1]] + a[2..]);
  }

  lemma MockAssetValue()
    ensures SumOf(ValueOf(), MockAssets) == 151500
  {
    var a := MockAssets;
    assert a[0].value == 15000 && a[1].value == 5000 && a[2].value == 120000;
    assert a[3].value == 3500 && a[4].value == 8000;
    assert a[1..][1..][1..][1..][1..] == [];
  }

  lemma MockTicketCounts()
    ensures |Filter(IsOpenTicket(), MockTickets)| == 2
    ensures |Filter(IsUrgentTicket(), MockTickets)| == 1
  {
    var t := MockTickets;
    assert t == [t[0]] + [t[1]];
    FilterAll(IsOpenTicket(), t);
    FilterSingleton(IsUrgentTicket(), t[0]);
    FilterSingleton(IsUrgentTicket(), t[1]);
    FilterAppend(IsUrgentTicket(), [t[0]], [t[1]]);
  }
}
