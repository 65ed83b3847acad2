/**
 * The conversions between the store's rows and the application's records: reading a
 * bed, a lab result and a discharge entry, and the rows written when a lab result is
 * created and when a bed is archived on discharge.
 */
module DbMappers {
  import opened Basics
  import opened Text
  import opened Records
  import opened BedLocator

  /**
   * A bed as read from the store, with the joined patient's name (`None` when the bed
   * has no patient or the patient row is gone). Pavilion and label come from the id.
   */
  function MapBed(row: BedRow, joinedName: Option<string>): (b: BedData)
    ensures b.id == row.id && b.status == row.status && b.patientId == row.patientId
    ensures b.pabellon == Locate(row.id) && b.bedLabel == BedLabel(row.id)
    ensures Truthy(joinedName) ==> b.patientName == joinedName
    ensures !Truthy(joinedName) ==> b.patientName == row.patientNameSnapshot
    ensures row.clinicalSummary.Some? ==> b.clinicalSummary == row.clinicalSummary.value
    ensures row.clinicalSummary.None? ==> b.clinicalSummary == []
    ensures row.labSections.Some? ==> b.labSections == row.labSections.value
    ensures row.labSections.None? ==> b.labSections == []
  {
    BedData(
      row.id, row.status, Locate(row.id), BedLabel(row.id),
      row.patientId, OrElse(joinedName, row.patientNameSnapshot),
      row.diagnosis, row.admissionDate,
      row.clinicalSummary.GetOr([]), row.plan.GetOr([]), row.carePlan, row.labSections.GetOr([]))
  }

  /** A lab row as a record: the type defaults to quantitative and the value falls back to the legacy column. */
  function MapLabResult(row: LabRow): (r: LabResult)
    ensures r.id == NatToString(row.id)
    ensures row.resultType.None? ==> r.resultType == Quantitative
    ensures row.value.Some? ==> r.value == row.value
    ensures row.value.None? ==> r.value == row.numericValue
  {
    LabResult(
      NatToString(row.id), row.date, row.testName, row.category,
      row.resultType.GetOr(Quantitative),
      if row.value.Some? then row.value else row.numericValue,
      row.textValue, row.unit, row.isAbnormal, row.fileName, row.fileUrl)
  }

  /** An archive row as a discharged-patient entry; it always shows the bed as available. */
  function MapDischarge(row: DischargeRow): (d: DischargedPatient)
    ensures d.id == row.originalBedId && d.status == Available
    ensures d.dischargeDate == row.dischargeDate
  {
    DischargedPatient(
      row.originalBedId, Available, row.patientName, row.condition,
      row.clinicalSummary.GetOr([]), row.plan.GetOr([]), row.labSections.GetOr([]),
      row.dischargeDate)
  }

  /** The row `createLabResult` inserts for `r` under the id the store hands out. */
  function LabInsertRow(r: LabResult, patientId: string, id: nat): LabRow {
    LabRow(id, patientId, r.date, r.testName, r.category, Some(r.resultType),
      r.value, None, r.textValue, r.unit, r.isAbnormal, r.fileName, r.fileUrl)
  }

  /** The archive row `dischargePatient` writes for `bed` on `today`. */
  function ArchiveRow(bed: BedData, today: string): DischargeRow {
    DischargeRow(bed.id, bed.patientName, today, bed.condition,
      Some(bed.clinicalSummary), Some(bed.plan), Some(bed.labSections))
  }

  // ---- properties ----

  /** Reading back a created lab result gives the record, with the store's id. */
  lemma LabInsertRoundTrip(r: LabResult, patientId: string, id: nat)
    ensures MapLabResult(LabInsertRow(r, patientId, id)) == r.(id := NatToString(id))
  {
  }

  /** Reading back an archive row restores the bed's clinical snapshot. */
  lemma ArchiveRoundTrip(bed: BedData, today: string)
    ensures var d := MapDischarge(ArchiveRow(bed, today));
      && d.id == bed.id && d.patientName == bed.patientName && d.condition == bed.condition
      && d.clinicalSummary == bed.clinicalSummary && d.plan == bed.plan
      && d.labSections == bed.labSections && d.dischargeDate == today && d.status == Available
  {
  }

  /** Whatever the pavilion and label columns hold, the bed mapper ignores them. */
  lemma MapBedIgnoresStoredLocation(row: BedRow, pavilion: string, bedText: string, joinedName: Option<string>)
    ensures MapBed(row.(pavilionColumn := pavilion, labelColumn := bedText), joinedName) == MapBed(row, joinedName)
  {
  }
}
