/**
 * Medical admission records. Vital signs are kept as a draft whose every
 * reading may be missing: an empty or unparsable input field is `None`.
 */
module MedicalTypes {
  import opened Common

  /** The vital signs as the admission form collects them. */
  datatype Vitals = Vitals(
    temperature: Option<real>,
    bloodPressureSystolic: Option<int>,
    bloodPressureDiastolic: Option<int>,
    pulse: Option<int>,
    respiratoryRate: Option<int>,
    oxygenSaturation: Option<int>,
    weight: Option<real>,
    height: Option<real>,
    bmi: Option<real>,
    measuredAt: Option<string>)

  const NoVitals: Vitals := Vitals(None, None, None, None, None, None, None, None, None, None)

  datatype SeizureHistory = SeizureHistory(
    hasSeizures: bool,
    lastSeizureDate: Option<string>,
    frequency: Option<string>,
    medication: Option<string>)

  datatype MedicalHistory = MedicalHistory(
    chronicDiseases: seq<string>,
    surgeries: seq<string>,
    allergies: seq<string>,
    familyHistory: seq<string>,
    seizureHistory: Option<SeizureHistory>)

  datatype Diagnosis = CP | Downs | Autism | IntellectualDisability | OtherDiagnosis

  datatype VaccinationStatus = UpToDate | Overdue | Incomplete | VaccinationPending

  datatype Medication = Medication(name: string, dosage: string, frequency: string, startDate: string, endDate: Option<string>)

  datatype InfectionStatus = InfectionStatus(
    suspectedInfection: bool,
    isolationRecommended: bool,
    isolationReason: Option<string>,
    vaccinationStatus: VaccinationStatus,
    lastVaccinationDate: Option<string>)

  datatype MedicalProfile = MedicalProfile(
    id: string,
    beneficiaryId: string,
    admissionDate: string,
    primaryDiagnosis: Diagnosis,
    secondaryDiagnoses: seq<string>,
    isEpileptic: bool,
    latestVitals: Vitals,
    history: MedicalHistory,
    currentMedications: seq<Medication>,
    infectionStatus: InfectionStatus)

  /** The partial profile the validation reads. */
  datatype ProfileDraft = ProfileDraft(
    isEpileptic: Option<bool>,
    primaryDiagnosis: Option<Diagnosis>,
    history: Option<MedicalHistory>)
}
