// Fixed assets and their maintenance tickets, with the demonstration data.

module AssetTypes {
  import opened Common

  datatype AssetCategory = MedicalDevice | Furniture | Vehicle | Electronic | Appliance | OtherCategory

  datatype AssetCondition = NewCondition | Good | Fair | Poor | Damaged | Retired

  datatype TicketPriority = LowPriority | MediumPriority | HighPriority | CriticalPriority

  datatype TicketStatus = TicketOpen | Assigned | TicketInProgress | Resolved

  /** A registered asset; `value` is its purchase value in whole currency units. */
  datatype FixedAsset = FixedAsset(
    id: string,
    assetTag: string,
    name: string,
    category: AssetCategory,
    location: string,
    custody: string,
    condition: AssetCondition,
    purchaseDate: string,
    value: int,
    lastMaintenanceDate: Option<string>,
    notes: Option<string>)

  datatype MaintenanceTicket = MaintenanceTicket(
    id: string,
    assetId: string,
    assetName: string,
    reportedBy: string,
    reportedAt: string,
    issueDescription: string,
    priority: TicketPriority,
    status: TicketStatus,
    assignedTo: Option<string>,
    resolvedAt: Option<string>,
    resolutionNotes: Option<string>)

  // Demonstration data.

  const MockAssets: seq<FixedAsset> := [
    FixedAsset("ast_001", "MED-2023-001", "Electric Wheelchair - Heavy Duty", MedicalDevice, "Room 101",
      "Nurse Station A", Good, "2023-01-15", 15000, Some("2023-06-01"), None),
    FixedAsset("ast_002", "FUR-2022-045", "Medical Bed - Adjustable", Furniture, "Room 102",
      "Nurse Station A", Damaged, "2022-05-20", 5000, Some("2022-11-10"), None),
    FixedAsset("ast_003", "VEH-2021-003", "Toyota HiAce Van (Ambulance)", Vehicle, "Parking Lot B",
      "Driver Mohammed", Fair, "2021-03-10", 120000, Some("2023-09-01"), None),
    FixedAsset("ast_004", "ELE-2023-012", "Desktop Computer - Admin", Electronic, "Director Office",
      "Admin Assistant", NewCondition, "2023-08-01", 3500, None, None),
    FixedAsset("ast_005", "APP-2020-088", "Industrial Washing Machine", Appliance, "Laundry Room",
      "Laundry Supervisor", Good, "2020-02-15", 8000, Some("2023-05-20"), None)
  ]

  const MockTickets: seq<MaintenanceTicket> := [
    MaintenanceTicket("tkt_101", "ast_002", "Medical Bed - Adjustable", "Nurse Sara", "2023-10-25T09:00:00",
      "Hydraulic lift stuck, not raising.", HighPriority, TicketInProgress, Some("Tech Khalid"), None, None),
    MaintenanceTicket("tkt_102", "ast_005", "Industrial Washing Machine", "Laundry Staff", "2023-10-26T14:30:00",
      "Loud noise during spin cycle.", MediumPriority, TicketOpen, None, None, None)
  ]
}
