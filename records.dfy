/**
 * The shared records of the application: beneficiaries (residents),
 * clothing inventory items and clothing requests.
 */
module Records {
  import opened Common

  datatype BeneficiaryStatus = ActiveStatus | ExitStatus

  /** A resident of the centre. Optional fields of the source are `Option`s. */
  datatype Beneficiary = Beneficiary(
    id: string,
    fullName: string,
    nationalId: Option<string>,
    roomNumber: Option<string>,
    bedNumber: Option<string>,
    nationality: string,
    gender: string,
    dob: string,
    age: int,
    enrollmentDate: string,
    guardianName: Option<string>,
    guardianRelation: string,
    guardianPhone: string,
    guardianResidence: string,
    visitFrequency: string,
    lastVisitDate: string,
    socialStatus: string,
    medicalDiagnosis: string,
    psychiatricDiagnosis: Option<string>,
    iqLevel: string,
    iqScore: string,
    notes: string,
    status: Option<BeneficiaryStatus>)

  datatype InventoryItem = InventoryItem(
    id: string,
    name: string,
    category: string,
    size: string,
    quantity: int,
    minQuantity: int,
    lastUpdated: string)

  datatype ClothingRequestItem = ClothingRequestItem(itemId: string, quantity: int)

  datatype ClothingRequestStatus = RequestPending | RequestApproved | RequestRejected | RequestDispensed

  datatype ClothingRequest = ClothingRequest(
    id: string,
    beneficiaryId: string,
    requestDate: string,
    items: seq<ClothingRequestItem>,
    status: ClothingRequestStatus,
    notes: Option<string>)

  /** `beneficiaries.find(b => b.id === id)`. */
  function FindBeneficiary(beneficiaries: seq<Beneficiary>, id: string): (r: Option<Beneficiary>)
    ensures r.Some? ==> r.value in beneficiaries && r.value.id == id
    ensures r.None? <==> forall b :: b in beneficiaries ==> b.id != id
  {
    Find((b: Beneficiary) => b.id == id, beneficiaries)
  }
}
