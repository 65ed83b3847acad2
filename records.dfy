/**
 * The records the ward application passes around: beds and their clinical
 * snapshot, patients, permanent lab results, discharge archive entries,
 * appointments and prescriptions, and the rows of the tables that store them.
 */
module Records {
  import opened Basics

  datatype ResultType = Quantitative | Qualitative

  /** One entry of the lab snapshot embedded in a bed; `value` is display text such as "100 mg/dL". */
  datatype LabMetric = LabMetric(
    name: string,
    value: string,
    kind: ResultType,
    category: string,          // "" when absent
    isAbnormal: Option<bool>)

  /** A dated, titled group of metrics inside a bed's snapshot. */
  datatype LabSection = LabSection(title: string, date: string, metrics: seq<LabMetric>)

  /** A permanent lab record: a numeric value with its unit when quantitative, a text value when qualitative. */
  datatype LabResult = LabResult(
    id: string,
    date: string,
    testName: string,
    category: string,
    resultType: ResultType,
    value: Option<int>,
    textValue: Option<string>,
    unit: Option<string>,
    isAbnormal: Option<bool>,
    fileName: Option<string>,
    fileUrl: Option<string>)

  /** The monitoring and device configuration attached to an occupied bed. */
  datatype CarePlan = CarePlan(
    hgt1400: string, hgt2200: string, hgt0600: string,
    catheterType: string, needleSize: string, nasogastricSonde: string, foleySonde: string, oxygenMode: string,
    venoclysis: bool, microdropper: bool, tripleWayCode: bool)

  /** The blank plan the forms start from. */
  const BlankCarePlan := CarePlan("", "", "", "", "", "", "", "", false, false, false)

  /**
   * A bed's care plan: `Unset` is a null column, which the bed mapper turns into the
   * empty object `{}` (still truthy in JavaScript); `Plan` is a filled-in plan.
   */
  datatype CarePlanValue = Unset | Plan(plan: CarePlan)

  datatype BedStatus = Available | Occupied

  /** A bed as the application sees it (the output of the bed mapper). */
  datatype BedData = BedData(
    id: int,
    status: BedStatus,
    pabellon: string,
    bedLabel: string,
    patientId: Option<string>,
    patientName: Option<string>,
    condition: Option<string>,
    admissionDate: Option<string>,
    clinicalSummary: seq<string>,
    plan: seq<string>,
    carePlan: CarePlanValue,
    labSections: seq<LabSection>)

  /**
   * A `Partial<BedData>` handed to the admission: `None` is a field left undefined,
   * which the store's update drops, so the column keeps its value.
   */
  datatype BedPayload = BedPayload(
    id: int,
    condition: Option<string>,
    admissionDate: Option<string>,
    clinicalSummary: Option<seq<string>>,
    plan: Option<seq<string>>,
    carePlan: Option<CarePlan>,
    labSections: Option<seq<LabSection>>)

  datatype Patient = Patient(
    id: string,
    name: string,
    dob: string,
    allergies: seq<string>,
    chronicConditions: seq<string>,
    bedId: Option<int>)

  datatype EvolutionNote = EvolutionNote(
    id: string,
    date: Option<string>,
    subjective: Option<string>,
    assessment: Option<string>,
    plan: Option<string>)

  /** A discharge archive entry as the application sees it. */
  datatype DischargedPatient = DischargedPatient(
    id: int,
    status: BedStatus,
    patientName: Option<string>,
    condition: Option<string>,
    clinicalSummary: seq<string>,
    plan: seq<string>,
    labSections: seq<LabSection>,
    dischargeDate: string)

  datatype AppointmentStatus = Programada | Completada | Cancelada

  datatype Appointment = Appointment(
    id: string,
    date: string,
    time: string,
    doctor: string,
    reason: string,
    status: AppointmentStatus,
    location: string)

  datatype MedicationItem = MedicationItem(
    name: string, dosage: string, frequency: string, route: string, form: string, totalQuantity: string)

  datatype Prescription = Prescription(
    id: string,
    patientId: string,
    doctorName: string,
    doctorLicense: string,
    date: string,
    diagnosis: string,
    weight: string,
    height: string,
    temperature: string,
    diet: string,
    carePlan: CarePlanValue,
    allergiesSnapshot: seq<string>,
    medications: seq<MedicationItem>)

  // ---- rows of the store's tables ----

  /** A row of the beds table; `pavilionColumn` and `labelColumn` are stored but never trusted. */
  datatype BedRow = BedRow(
    id: int,
    status: BedStatus,
    pavilionColumn: string,
    labelColumn: string,
    patientId: Option<string>,
    patientNameSnapshot: Option<string>,
    diagnosis: Option<string>,
    admissionDate: Option<string>,
    clinicalSummary: Option<seq<string>>,
    plan: Option<seq<string>>,
    carePlan: CarePlanValue,
    labSections: Option<seq<LabSection>>)

  /** A row of the lab_results table; `numericValue` is the legacy value column. */
  datatype LabRow = LabRow(
    id: nat,
    patientId: string,
    date: string,
    testName: string,
    category: string,
    resultType: Option<ResultType>,
    value: Option<int>,
    numericValue: Option<int>,
    textValue: Option<string>,
    unit: Option<string>,
    isAbnormal: Option<bool>,
    fileName: Option<string>,
    fileUrl: Option<string>)

  /** A row of the discharge_history table. */
  datatype DischargeRow = DischargeRow(
    originalBedId: int,
    patientName: Option<string>,
    dischargeDate: string,
    condition: Option<string>,
    clinicalSummary: Option<seq<string>>,
    plan: Option<seq<string>>,
    labSections: Option<seq<LabSection>>)
}
