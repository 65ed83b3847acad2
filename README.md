# Hospital ward app: bed, patient and lab-result sync

This project models in Dafny the core of a small hospital application. The app tracks
patients, the beds of a ward and their lab results.

- **Beds.** Each bed carries a clinical "snapshot": a condition, a summary, a plan, a
  care plan and sections of lab metrics. The snapshot is shown on the bed board.
- **Lab results.** Lab results are also kept as separate records for each patient.
- **The sync.** The data layer keeps the two in step. When a bed is written, every
  metric of its snapshot whose (date, test name) key is not on file for the patient is
  inserted as a new lab record.
- **The handlers.** The application handlers merge new results into the snapshot, strip
  deleted results from it, and build the snapshot when a patient is admitted.
- **The screens.** The screens add pure selection and validation logic:
  - the patient search and the admission dialog;
  - the lab chart and the lab form;
  - the appointment lists and forms, and the prescription form.

Module layout, one file per module:

| file | module | form |
|---|---|---|
| `basics.dfy` | `Basics` | `Option`, JavaScript truthiness, decimal rendering and parsing of integers |
| `text.dfy` | `Text` | `trim`, `split(' ')`, `join(' ')`, lower-casing, substring search |
| `seqs.dfy` | `Seqs` | filter, find, distinct, stable insertion sort with its sortedness and permutation proofs |
| `records.dfy` | `Records` | the entities: patients, beds, lab results, lab sections and metrics, appointments, prescriptions, store rows |
| `bed_locator.dfy` | `BedLocator` | functions: how a bed id is turned into a pavilion and a bed label |
| `db_mappers.dfy` | `DbMappers` | functions: how store rows become records |
| `lab_sync.dfy` | `LabSync` | functions and lemmas: what one sync call inserts |
| `db_service.dfy` | `DbService` | a `Store` class over the tables, whose methods are the service calls, with the loops of the sync |
| `app.dfy` | `App` | the pure parts of the handlers: the metric merge, the strip, the admission snapshot |
| `app_handlers.dfy` | `AppHandlers` | an `AppState` class holding the screen lists, whose methods are the handlers |
| `patient_list.dfy` | `PatientList` | the search and bed selection (functions), and the admission dialog (class) |
| `lab_results.dfy` | `LabResults` | the chart data and the form validation (functions), and the panel state (class) |
| `clinical_history.dfy` | `ClinicalHistory` | the appointment lists and the forms (functions), and the appointment and prescription panels (classes) |

How the model is set up:

- **The store.** The remote store is a value of type `Tables`: maps of patients and
  beds, a sequence of lab rows with the next id the store hands out, and the discharge
  archive.
- **Failures.** Each request that can fail is named in a `Faults` value, and the
  methods follow the same branches as the source for each failure.
- **Handlers.** Each handler is a method of `AppState`. Its `ensures` ties the new
  screen lists and the new tables to a transition function of the old ones. The
  properties of those transitions are proved as lemmas.

Places where the source's own comments or names suggest one behaviour and its code
does another; the model follows the code:

- **Merging a new result.** The comment at App.tsx:272 speaks of a section "for today
  or generic 'Resultados Recientes'". The code at App.tsx:273 looks for a section dated
  *today* or titled 'Resultados del Día', and never uses the date of the result.
  `ReaddedUnderToday` and `StaleDaySectionMisdates` show what follows.
- **Admission metrics.** The admission snapshot builds its metrics without a category
  (App.tsx:472-477). The sync's category cascade (services/dbService.ts:574-586) then
  files them under the section title.
- **The bed sync guard.** App.tsx:505 tests `updatedBed.labSections` before syncing,
  but an array, even an empty one, is truthy. So the guard reduces to "the patient id is
  truthy".
- **Name snapshot.** The bed's stored patient-name snapshot is never written by the
  handlers. It is read only as the fallback for the joined name.

## Model

| member | source | states |
|---|---|---|
| BedLocator.BedLabel | services/dbService.ts:62 | every bed label starts with "Cama " and names the id |
| BedLocator.RawBedLabel | services/dbService.ts:58-62 | a numeric raw id is labelled as the number is |
| BedLocator.LocateWard | services/dbService.ts:36-54 | a positive id is in sector I or II of pavilion w exactly when it lies in that sector's range of 24 beds (48 beds per pavilion) |
| BedLocator.LocateGeneral | services/dbService.ts:36-38 | an id is located in "General" exactly when it is not positive |
| BedLocator.LocateExamples | services/dbService.ts:36-54 | beds 1 and 24 are pavilion 1 sector I; beds 25 and 48 are sector II; bed 49 starts pavilion 2; bed 384 is pavilion 8 sector II |
| BedLocator.WardLabelInjective | services/dbService.ts:53 | different (pavilion, sector) pairs get different labels |
| BedLocator.BedLabelInjective | services/dbService.ts:62 | different ids get different bed labels |
| BedLocator.LocateRawOfRenderedId | services/dbService.ts:34-38 | an id stored as its decimal text is located like the number |
| BedLocator.LocateRawNaN | services/dbService.ts:34-38 | text whose first character starts no number parses to NaN and is located in "General" |
| DbMappers.MapBed | services/dbService.ts:27-73 | id, status and patient are copied; pavilion and label come from the id; the joined name wins when truthy, else the stored snapshot name; missing summary and lab sections become empty |
| DbMappers.MapLabResult | services/dbService.ts:99-113 | the id becomes text; a missing type is quantitative; a missing value falls back to the legacy numeric column |
| DbMappers.MapDischarge | services/dbService.ts:75-84 | an archive entry shows the original bed id, the status available and the discharge date |
| DbMappers.LabInsertRoundTrip | services/dbService.ts:300-317 | reading back the row `createLabResult` inserts gives the record, with the id the store handed out |
| DbMappers.ArchiveRoundTrip | services/dbService.ts:597-634 | reading back the archive row of a discharge restores the bed's clinical snapshot and the discharge date |
| DbMappers.MapBedIgnoresStoredLocation | services/dbService.ts:56-62 | the stored pavilion and label columns have no effect on the bed shown |
| LabSync.ParseDisplay | services/dbService.ts:555-572 | only a quantitative display whose first piece parses yields a number, and then there is no text; otherwise the display is kept whole as text and there is no unit |
| LabSync.SyncedRecord | services/dbService.ts:574-586 | the record carries the section's date and the metric's name and type; the category is the metric's, else the section title, else "General"; abnormal is true only for an explicit true; a value of 0 is never stored; there is no file |
| LabSync.SectionEntries | services/dbService.ts:550-551 | the inner loop visits the metrics of a section in order, each paired with its section |
| LabSync.RecordsOf | services/dbService.ts:574-586 | one record for each visited metric, in order |
| LabSync.PlanOf | services/dbService.ts:549-589 | a walk inserts at most one record for each metric it visits |
| LabSync.PlanStep | services/dbService.ts:551-587 | one more visited metric appends its record to the walk's records exactly when its key is new |
| LabSync.PlanOfIsFiltered | services/dbService.ts:549-589 | the walk's records equal the reference definition: keep the entries whose key is new, then build one record for each |
| LabSync.PlannedIsFiltered | services/dbService.ts:541-589 | one sync call inserts exactly the records of the new-keyed metrics of all its sections, in visiting order and with repetitions |
| LabSync.PlanPrefix | services/dbService.ts:549-589 | the records of a visited prefix are a prefix of the records of the whole walk |
| LabSync.PlanOfAppend | services/dbService.ts:549-589 | the records of a concatenated walk are the records of each part, in order |
| LabSync.PlannedAppend | services/dbService.ts:549-550 | the records for a concatenation of section lists are those of each list in turn |
| LabSync.PlannedStep | services/dbService.ts:549-550 | the outer loop: one more section appends that section's records |
| LabSync.SectionPlanStep | services/dbService.ts:551-554 | the inner loop: one more metric appends its record when its key is new |
| LabSync.PlannedAround | services/dbService.ts:549-589 | the records of a snapshot split into those before section i, those of section i, and those after |
| LabSync.SectionPlanHeading | services/dbService.ts:551-579 | a section's records depend only on its title and date, not on its other fields |
| LabSync.PlannedOnlyNew | services/dbService.ts:551-554 | every inserted record's key was absent before the call |
| LabSync.PlannedCovers | services/dbService.ts:551-554 | every metric whose key was absent before the call is inserted |
| LabSync.PlannedNothingNew | services/dbService.ts:551-554 | when every key is already on file, nothing is inserted |
| LabSync.EveryKeyCovered | services/dbService.ts:541-589 | after a call, every key of its sections is on file or is the key of an inserted record |
| LabSync.PlanTwice | services/dbService.ts:551-554 | a metric visited twice under a key that is not on file adds its record twice |
| LabSync.DuplicatesInsertedTwice | services/dbService.ts:541-554 | the key set is read once before the loops, so a metric listed twice under an absent key is inserted twice |
| LabSync.ParseNumericDisplay | services/dbService.ts:558-565 | a display whose first piece is a number gives that number, with the remaining pieces joined by spaces as the unit |
| LabSync.ParseRendered | services/dbService.ts:558-565 | a display rendered as "{value} {unit}", with no blanks around the unit, parses back to the value and the unit |
| LabSync.ParseQualitative | services/dbService.ts:570-572 | a qualitative display is stored whole as text |
| LabSync.ParseNotANumber | services/dbService.ts:558-569 | a quantitative display whose first character is not white space, a digit or a sign is stored whole as text, trailing blanks included |
| DbService.SetPatientBed | services/dbService.ts:489-492 | only the patient table changes, and no patient is added or removed |
| DbService.ReleaseBed | services/dbService.ts:620-632 | only the bed table changes, and no bed is added or removed |
| DbService.LabRowsReadBack | services/dbService.ts:302-315 | every inserted row belongs to the patient, and row k reads back as record k under the id `first + k` |
| DbService.InsertThenRead | services/dbService.ts:302-315 | after an insert run, the patient's results read back as the earlier results followed by each inserted record under its new id |
| DbService.Store.constructor | services/dbService.ts:1 | the store starts with the given tables; `configured` stands for the imported `isDbConfigured` flag (with the client), whose guard every service call repeats |
| DbService.Store.CreateLabResult | services/dbService.ts:300-318 | without a store nothing happens; a failing insert throws and changes nothing; otherwise one row is appended under the next id and the record is returned with that id |
| DbService.Store.DeleteLabResult | services/dbService.ts:339-344 | without a store nothing happens; a failed delete throws and changes nothing; otherwise the rows with that id are removed |
| DbService.Store.AssignPatientToBed | services/dbService.ts:486-513 | the patient's bed id is written first, and a failure there throws before the bed is touched; then the bed is occupied with the snapshot, and a failure there throws with the patient already written |
| DbService.Store.UpdateBed | services/dbService.ts:515-534 | without a store nothing happens; a failed write or a missing row throws and changes nothing; otherwise the bed's snapshot columns are written from the bed as shown and the row is read back through the mapper |
| DbService.Store.SyncBedLabsToResults | services/dbService.ts:537-590 | the keys on file are read once (none if the read fails); then exactly the planned records are inserted, or those before the failing insert |
| DbService.Store.InsertNewMetrics | services/dbService.ts:549-589 | the outer loop inserts the walk's records in order, and stops at the failing insert having kept those before it |
| DbService.Store.InsertSectionAt | services/dbService.ts:549-589 | one turn of the outer loop extends the inserted records by one section's records, or ends in the failing insert with those before it kept |
| DbService.Store.InsertSection | services/dbService.ts:550-588 | the inner loop inserts one section's records in order, up to the failing insert |
| DbService.Store.InsertMetric | services/dbService.ts:551-587 | one turn of the inner loop extends the inserted records by the metric's record when its key is new |
| DbService.Store.InsertIfNew | services/dbService.ts:551-587 | a metric with a new key is created through `createLabResult`; a metric with a key on file changes nothing |
| DbService.Store.DischargePatient | services/dbService.ts:592-635 | the archive entry is written first, and a failure there throws with nothing changed; then the patient's bed id is cleared and the bed vacated, and failures of these two writes are not reported |
| DbService.Store.DeletePatient | services/dbService.ts:192-234 | a held bed is vacated without an archive entry, the patient's lab rows are deleted, then the patient; only the last failure is reported |
| DbService.InsertStepThen | services/dbService.ts:549-589 | inserting a + b is inserting a, then b with the failing insert counted on from |a| |
| DbService.InsertStepAll | services/dbService.ts:549-589 | an insert run in which no insert fails inserts the whole plan |
| DbService.InsertStepExtend | services/dbService.ts:549-589 | an insert that fails within a plan fails the same way within any extension of that plan |
| DbService.InsertStepFails | services/dbService.ts:574-586 | when an insert fails, exactly the records before it stay inserted |
| DbService.InsertLabsAppend | services/dbService.ts:574-586 | inserting a and then b is inserting a + b |
| DbService.AssignEffect | services/dbService.ts:486-513 | admission when no store is configured, when the patient write fails, when the bed write fails, and when both writes succeed |
| DbService.AssignKeepsLinked | services/dbService.ts:486-513 | admitting a patient without a bed to an available bed keeps every patient and every bed pointing at each other |
| DbService.AssignToOccupiedBreaksLink | services/dbService.ts:486-513 | there is no availability check: admitting to an occupied bed leaves the former patient pointing at a bed that names someone else |
| DbService.AssignBedWriteLostBreaksLink | services/dbService.ts:494-510 | a failed bed write after the patient write leaves the patient pointing at a bed that does not name them |
| DbService.DischargeEffect | services/dbService.ts:592-635 | the tables after a discharge, for each failing step |
| DbService.VacatedIsEmpty | services/dbService.ts:620-632 | a vacated bed is available, names no patient and has every snapshot column empty |
| DbService.DischargeKeepsLinked | services/dbService.ts:592-635 | discharging a bed as the store holds it keeps the tables linked |
| DbService.DischargeLostPatientWriteBreaksLink | services/dbService.ts:613-618 | when the patient write of a discharge fails, the patient keeps pointing at the vacated bed |
| DbService.DeletePatientEffect | services/dbService.ts:192-234 | the tables after a patient delete, for each failing step |
| DbService.DeleteKeepsLinked | services/dbService.ts:192-234 | deleting a patient keeps the tables linked |
| DbService.DeletePatientWriteLostBreaksLink | services/dbService.ts:226-231 | when the final delete fails, the patient remains and points at the bed that was vacated |
| DbService.CreateThenRead | services/dbService.ts:300-318 | a created result is read back under the store's id, after the patient's earlier results |
| DbService.DeleteLabResultEffect | services/dbService.ts:339-344 | a delete removes every row with that id and keeps every other row, in order |
| DbService.ExistingKeysMember | services/dbService.ts:541-547 | the key of every row of the patient is in the set of keys on file |
| DbService.ExistingKeysSource | services/dbService.ts:541-547 | every key on file is the key of one of the patient's rows |
| DbService.PatientLabsKeysOnFile | services/dbService.ts:541-547 | the key of every lab result on file for the patient is among the keys the synchroniser reads |
| DbService.KeysKept | services/dbService.ts:549-589 | appending rows keeps every key on file |
| DbService.InsertedRowKey | services/dbService.ts:574-586 | the row inserted for a planned record puts that record's key on file |
| DbService.InsertedKeys | services/dbService.ts:549-589 | after inserting a plan, the earlier keys and the keys of the planned records are on file |
| DbService.SyncInsertsExactlyNew | services/dbService.ts:537-590 | a sync without failures inserts exactly the records of the metrics whose key was not on file, in walk order |
| DbService.SyncWithoutKeysInsertsAll | services/dbService.ts:541-547 | when the read of the keys fails, every metric is inserted again |
| DbService.SyncIdempotent | services/dbService.ts:537-590 | a second sync of the same sections inserts nothing |
| App.MetricOfResult | App.tsx:257-266 | the metric keeps the result's name, type, category and abnormal flag |
| App.StripDeletedResult | App.tsx:330-355 | the loop produces the stripped snapshot without empty sections, and reports whether any section changed |
| App.AdmissionValue | App.tsx:462-470 | a lab with a value shows its value and unit; without one, its text when that is not blank, else "Sin resultado", so never an empty display |
| App.AdmissionCondition | App.tsx:443 | the condition is the newest note's assessment when there is one, else the first chronic condition, else the default text |
| App.AdmissionPlan | App.tsx:450 | one non-empty line: the newest note's plan when it has one, else the default of a full initial assessment |
| App.AdmissionSummary | App.tsx:445-449 | three summary lines, the first naming the patient |
| App.AdmissionPayload | App.tsx:441-482 | the admission payload keeps the form's bed id and care plan, and takes the condition, today's date and the lab sections from the snapshot |
| App.ReplaceBedMeaning | App.tsx:517 | the ids stay in order; the new bed is listed exactly when its id was; a bed of another id is listed exactly when it was before; with unique ids the new bed is listed once |
| App.AssignedBed | App.tsx:55-57 | the selected patient's bed, when the bed id is truthy and the bed is listed |
| App.MetricRoundTrip | App.tsx:257-266 | a quantitative result with a non-zero value and an unpadded unit survives the re-sync of its metric |
| App.MetricRoundTripText | App.tsx:259-261 | a qualitative result's text survives the re-sync of its metric |
| App.ZeroValueLost | services/dbService.ts:581 | a value of 0 does not survive the re-sync |
| App.MergeIntoTarget | App.tsx:273-276 | the metric goes to the end of the first target section, and every other section is kept |
| App.MergeWithoutTarget | App.tsx:277-284 | without a target section, a day section holding only the metric is put in front |
| App.MergeAddsOneMetric | App.tsx:268-284 | merging adds exactly the one metric to the snapshot and loses none |
| App.NewDaySectionPlan | App.tsx:277-288 | after a merge that adds a day section, the re-sync plans the new metric first (when its key is new), followed by exactly the records planned before |
| App.ReaddedUnderToday | App.tsx:270-288 | because the merge matches on today rather than the result's date, the re-sync inserts the result again, dated today |
| App.MergeOnFileAddsNothing | App.tsx:273-288 | when the result's key is already on file, the re-sync after a merge into a target section inserts nothing new |
| App.AppendedOnFile | App.tsx:276 | a metric appended under a key on file adds no record to its section's plan |
| App.NewDayOnFileAddsNothing | App.tsx:277-288 | with the key on file, the new day section adds nothing to the re-sync either |
| App.StaleDaySectionMisdates | App.tsx:273-276 | a section titled as the day's results but dated earlier still takes the metric, and the re-sync files the result under that older date |
| App.StrippedNotResynced | App.tsx:338-362 | the re-sync of a stripped snapshot never files the deleted test again on the deleted record's date |
| App.StripChangedIff | App.tsx:335-357 | the strip reports a change exactly when the snapshot written back differs from the one read |
| App.StrippedMeaning | App.tsx:338-352 | after the strip, no section on the date holds the test, every other metric of a kept section remains, no section is empty, and the written sections are exactly the non-empty stripped sections, in their original order |
| App.AdmissionSectionsMeaning | App.tsx:455-482 | the admission lab sections are empty without labs, else a single section with one metric per lab of the newest date: metric j comes from the lab at position idx[j], the positions strictly ascend, and every lab of that date has its position in idx |
| App.AdmissionResyncsNothing | App.tsx:455-485 | when every lab is on file, syncing the admission snapshot inserts nothing |
| AppHandlers.FetchedLabs | services/dbService.ts:236-253 | the fetched results are none without a store or when the read fails, else the patient's results newest first |
| AppHandlers.ReplacePatientMeaning | App.tsx:183 | the ids stay in order; the updated patient is listed exactly when its id was; a patient of another id is listed exactly when it was before; with unique ids the updated patient is listed once |
| AppHandlers.UpdatePatientShows | App.tsx:179-193 | a returned patient is listed exactly when its id was, other patients keep their place in the list, a selected patient of that id is replaced, and nothing changes when the update returns nothing |
| AppHandlers.AppState.constructor | App.tsx:27-39 | the screen starts with empty lists and no selection |
| AppHandlers.AppState.AssignedBedOf | App.tsx:55-57 | returns the selected patient's listed bed |
| AppHandlers.AppState.Select | App.tsx:686 | only the selection changes |
| AppHandlers.AppState.CreatePatient | App.tsx:167-177 | a created patient is put in front of the list; a failure changes nothing |
| AppHandlers.AppState.UpdatePatient | App.tsx:179-193 | an updated patient replaces the listed one and the selection when it is selected |
| AppHandlers.AppState.DeletePatient | App.tsx:195-209 | the screen and the tables follow the delete-patient transition |
| AppHandlers.AppState.UpdateBed | App.tsx:498-523 | the screen and the tables follow the bed write, the sync and the refresh |
| AppHandlers.AppState.AddLabResult | App.tsx:244-302 | the screen and the tables follow the create, the merge and the bed update |
| AppHandlers.AppState.DeleteLabResult | App.tsx:315-370 | the screen and the tables follow the delete, the strip and the bed update |
| AppHandlers.AppState.AssignPatientToBed | App.tsx:433-496 | the screen and the tables follow the admission built from the fetched details |
| AppHandlers.AppState.DischargePatient | App.tsx:525-538 | the screen and the tables follow the discharge and the reload |
| AppHandlers.AppState.Load | App.tsx:78-98 | the fetched lists replace the shown ones; a failed fetch leaves them as they are |
| AppHandlers.UpdateBedWriteFails | App.tsx:498-523 | a failed bed write leaves the screen and the tables as they were |
| AppHandlers.UpdateBedWithoutPatient | App.tsx:505-518 | a bed without a patient is written and shown as read back, with nothing synced and every other bed and list unchanged |
| AppHandlers.UpdateBedKeysLostShowsRepeats | App.tsx:505-513 | when only the synchroniser's key read fails, every metric is inserted again, and the refreshed results of the selected patient grow by one per metric |
| AppHandlers.UpdateBedSyncs | App.tsx:505-513 | a bed with a patient is written and synced, inserting exactly the new-keyed metrics; the selected patient's results are then fetched again |
| AppHandlers.AddLabWithoutSelection | App.tsx:245 | without a selected patient, adding a result does nothing |
| AppHandlers.AddLabWithoutBed | App.tsx:248-298 | for a patient not in a listed bed, the created record is put in front of the results and is on file under the next id |
| AppHandlers.CreatedKeyOnFile | services/dbService.ts:300-317 | after a create, the record's key is on file for its patient |
| AppHandlers.AddLabNoDuplicate | App.tsx:248-291 | adding today's result for a patient in a bed whose day sections are dated today syncs without inserting the result twice |
| AppHandlers.DeleteLabDropsResult | App.tsx:318-322 | a failed delete changes nothing; otherwise the record leaves the shown results |
| AppHandlers.DeleteLabBedUntouched | App.tsx:352-363 | when the strip changes nothing, the bed is not written and nothing is synced |
| AppHandlers.DeleteLabStripsBed | App.tsx:325-363 | when the strip changes the snapshot of a bed without a patient, the bed is shown with the stripped snapshot |
| AppHandlers.DeletePatientClearsLists | App.tsx:195-204 | deleting a patient takes them off the list and out of the selection |
| AppHandlers.DischargeShowsEntry | App.tsx:525-534 | a discharge that archives puts the entry in front of the history; one that fails changes nothing |
| AppHandlers.AssignWritesSnapshot | App.tsx:433-488 | an admission writes the snapshot built from the store's records and links the patient to the bed |
| AppHandlers.FetchedKeysOnFile | services/dbService.ts:236-253 | every fetched result has its key on file for the patient |
| AppHandlers.AdmissionSnapshotOnFile | App.tsx:455-485 | syncing the admission snapshot later inserts nothing |
| AppHandlers.FetchedNewestFirst | services/dbService.ts:243 | the fetched results are ordered by date, newest first |
| PatientList.FilteredPatients | components/PatientList.tsx:42-45 | a patient is kept exactly when the lower-cased term occurs in the lower-cased name or id |
| PatientList.EmptySearchKeepsAll | components/PatientList.tsx:42-45 | an empty search keeps every patient, in order |
| PatientList.AvailableBeds | components/PatientList.tsx:47 | exactly the available beds are kept |
| PatientList.AvailablePavilionsSorted | components/PatientList.tsx:50-54 | the pavilion list is sorted and has no repeats |
| PatientList.AvailablePavilionsMember | components/PatientList.tsx:50-54 | every listed pavilion has an available bed |
| PatientList.AvailablePavilionsSource | components/PatientList.tsx:50-54 | the pavilion of every available bed is listed |
| PatientList.BedsInPavilionMeaning | components/PatientList.tsx:57-62 | no beds before a pavilion is chosen; after that, exactly the pavilion's available beds, by ascending id |
| PatientList.AssignmentDialog.constructor | components/PatientList.tsx:30-40 | no patient, bed or pavilion is chosen and the care plan form is blank |
| PatientList.AssignmentDialog.Open | components/PatientList.tsx:225-227 | the dialog opens only for a patient without a bed |
| PatientList.AssignmentDialog.ChoosePavilion | components/PatientList.tsx:358-359 | choosing a pavilion clears the chosen bed |
| PatientList.AssignmentDialog.ChooseBed | components/PatientList.tsx:384 | only the chosen bed changes |
| PatientList.AssignmentDialog.Finalize | components/PatientList.tsx:75-91 | with a patient and a truthy bed id chosen, the admission is requested and the dialog reset; otherwise nothing happens |
| PatientList.AssignmentDialog.Cancel | components/PatientList.tsx:93-97 | the choice is cleared and the care plan form keeps what was typed |
| LabResults.NextSelection | components/LabResults.tsx:29-33 | with tests listed, the selection is one of them; a listed selection is kept; otherwise the first test is chosen |
| LabResults.ChartResults | components/LabResults.tsx:35-39 | every charted result has a value |
| LabResults.BuildLabRecord | components/LabResults.tsx:203-226 | no record without a test name or date; otherwise the record keeps them and the type, with the defaults for id and category |
| LabResults.LabPanel.constructor | components/LabResults.tsx:26-72 | no chart test, all types shown, not editing, and the blank form for today |
| LabResults.LabPanel.RefreshSelection | components/LabResults.tsx:29-33 | the chart test becomes the next selection among the available tests |
| LabResults.LabPanel.ChooseFilter | components/LabResults.tsx:317-329 | only the type filter changes |
| LabResults.LabPanel.OpenCreate | components/LabResults.tsx:178-194 | the form becomes the blank form for today, not editing |
| LabResults.LabPanel.OpenEdit | components/LabResults.tsx:196-201 | the form holds the result's fields, editing |
| LabResults.LabPanel.Submit | components/LabResults.tsx:203-230 | an invalid form sends nothing; editing sends an update; otherwise an add, and a quantitative add becomes the chart test |
| LabResults.AvailableTestsMeaning | components/LabResults.tsx:17-24 | the tests offered have no repeats, and are exactly the names of the quantitative results with a value |
| LabResults.SelectionSettles | components/LabResults.tsx:29-33 | applying the selection rule twice gives the same as applying it once |
| LabResults.ChartDataMeaning | components/LabResults.tsx:35-41 | no selection charts nothing; otherwise the points are in date order and are exactly those of the quantitative results with that test and a value |
| LabResults.FilteredResultsMeaning | components/LabResults.tsx:78-83 | the filter keeps exactly the results of the chosen type, or all of them |
| LabResults.RecordValueXorText | components/LabResults.tsx:213-226 | a quantitative record carries no text, and a qualitative one has no value or unit |
| LabResults.EditRoundTrip | components/LabResults.tsx:196-226 | editing a well-formed record and submitting it unchanged gives the same record |
| ClinicalHistory.BuildAppointment | components/ClinicalHistory.tsx:437-461 | no appointment unless date, time, doctor and reason are filled; the id is kept when editing, else made from the clock; status and location have defaults |
| ClinicalHistory.AppointmentPanel.constructor | components/ClinicalHistory.tsx:35-78 | nothing is being edited or cancelled, and the draft holds the defaults for today |
| ClinicalHistory.AppointmentPanel.OpenAdd | components/ClinicalHistory.tsx:407-418 | the draft is reset for today with the doctor's name and nothing is being edited |
| ClinicalHistory.AppointmentPanel.OpenEdit | components/ClinicalHistory.tsx:420-424 | the draft holds the appointment, which is being edited |
| ClinicalHistory.AppointmentPanel.InitiateCancel | components/ClinicalHistory.tsx:426-428 | the appointment waits for cancellation confirmation |
| ClinicalHistory.AppointmentPanel.ConfirmCancel | components/ClinicalHistory.tsx:430-435 | the pending appointment is sent back cancelled, and none is pending afterwards |
| ClinicalHistory.AppointmentPanel.Submit | components/ClinicalHistory.tsx:437-461 | the request is the appointment built from the draft: an update when editing, an addition otherwise, none when a required field is empty |
| ClinicalHistory.WithField | components/ClinicalHistory.tsx:138-142 | the named field takes the value and every other field is kept |
| ClinicalHistory.RemoveAt | components/ClinicalHistory.tsx:144-147 | the item at the index is dropped, the others keep their order, and an index out of range changes nothing |
| ClinicalHistory.BuildPrescription | components/ClinicalHistory.tsx:149-179 | no prescription without a diagnosis; otherwise it takes the bed's care plan (or a blank one), the doctor's name (or the default) and the patient's allergies |
| ClinicalHistory.PrescriptionPanel.constructor | components/ClinicalHistory.tsx:81-95 | the form starts blank, with the default diet and no medications |
| ClinicalHistory.PrescriptionPanel.Open | components/ClinicalHistory.tsx:109-120 | the form is reset to blank |
| ClinicalHistory.PrescriptionPanel.AddMedication | components/ClinicalHistory.tsx:121-136 | one empty medication is appended |
| ClinicalHistory.PrescriptionPanel.UpdateMedication | components/ClinicalHistory.tsx:138-142 | only the one field of the one medication changes |
| ClinicalHistory.PrescriptionPanel.RemoveMedication | components/ClinicalHistory.tsx:144-147 | the medication at the index is dropped |
| ClinicalHistory.PrescriptionPanel.Submit | components/ClinicalHistory.tsx:149-179 | the request is the built prescription |
| ClinicalHistory.PrintedRowNumbers | components/ClinicalHistory.tsx:348-357 | the printed sheet numbers max(15, n) rows from 1 |
| ClinicalHistory.MomentOrders | components/ClinicalHistory.tsx:54-66 | ordering by moment is a total preorder, in both directions |
| ClinicalHistory.UpcomingMember | components/ClinicalHistory.tsx:54-59 | an appointment is upcoming exactly when it is scheduled and its moment is after now |
| ClinicalHistory.PastMember | components/ClinicalHistory.tsx:61-66 | an appointment is past exactly when it is not upcoming |
| ClinicalHistory.AppointmentsPartition | components/ClinicalHistory.tsx:54-66 | the upcoming and past lists together hold every appointment exactly once |
| ClinicalHistory.AppointmentsOrdered | components/ClinicalHistory.tsx:54-66 | upcoming appointments are soonest first and past ones latest first |
| ClinicalHistory.NextAppointmentMeaning | components/ClinicalHistory.tsx:68 | the next appointment exists exactly when one is upcoming, and none upcoming is earlier |
| ClinicalHistory.CancelledIsPast | components/ClinicalHistory.tsx:54-66 | a cancelled appointment is never upcoming |
| ClinicalHistory.AddedAppointmentUpcoming | components/ClinicalHistory.tsx:437-461 | a new appointment built with a moment after now is upcoming |
| ClinicalHistory.RemoveAtKeepsOthers | components/ClinicalHistory.tsx:144-147 | removing row i takes away exactly one occurrence of that row and keeps every other row, counted as a multiset |

## Left out

- The remote store is modelled as in-memory tables. The model does not cover its SQL,
  HTTP, authentication or row-level rules. A failure is an explicit `Faults` choice, not
  a network event.
- Requests that the source runs with `Promise.all` are modelled one after another. The
  model does not cover interleaving with other users, such as two admissions racing for
  one bed.
- The reloads after a handler, `loadData` and the bed fetch, are given as parameters.
  Their contents are whatever the store returns. The ordering of the patient fetch is
  not modelled.
- `uploadLabFile` is not modelled. Its URL is a parameter of the lab form's submit.
- The AI assistant calls, the login and profile, the evolution-note, appointment and
  prescription services, and the creation and update of patients inside the store are
  not modelled. The handlers take their results as parameters.
- The user interface is not modelled: modals, alerts, mobile menu, print windows and
  the PDF and HTML output. Only the numbering of the printed prescription rows is kept.
- The effect that loads a patient's details whenever the selection changes is not
  modelled. `Select` changes only the selection, and the handlers that need the details
  fetch them explicitly.
- Numbers are integers. `parseFloat` is modelled as parsing a signed integer prefix, so
  decimals, exponents and floating-point rounding are out.
- `Number(undefined)` and NaN in the lab form are not modelled: the model keeps a
  missing value missing.
- The chart's check for a missing value tests only `undefined`. The model has no
  separate `null`.
- Dates and times are ISO strings compared by `StrLe`. A malformed date is NaN in the
  source, which then leaves a scheduled appointment out of both lists. The model
  assumes well-formed dates.
- JavaScript's default sort compares UTF-16 code units. The model compares characters.
- The order among equal dates in the sorts is left open.
- The age, today's date and the clock (`Date.now()`) are parameters.
- `handleAddLabResult` copies only the outer array of sections (App.tsx:269), then
  pushes the new metric onto a section's metrics array (App.tsx:276). That section is
  shared with the bed listed on screen, so the push changes the listed bed in place. The
  model treats the snapshot as a value and leaves this effect out. When the bed write
  throws (App.tsx:518-521), or returns nothing because no store is configured
  (App.tsx:516), the source's listed bed already holds the new metric: the next render
  shows it, and the next write of that bed sends it. In the model the listed bed stays as
  it was (`AppHandlers.UpdateBedWriteFails`).
- `handleUpdateCarePlan` (components/PatientList.tsx:71-73) is not modelled, nor is
  editing a lab result through the store.
- `IsSpace` covers the ASCII white space and the no-break, Ogham, line separator,
  paragraph separator, ideographic and byte-order spaces. It leaves out the space
  separators U+2000 to U+200A, U+202F and U+205F, which `trim` also removes.
- `Text.Lower` and `Text.LowerChar` lower-case only A to Z and the Latin-1 capitals
  U+00C0 to U+00DE (except U+00D7). JavaScript's `toLowerCase` folds every Unicode
  capital and can change a string's length (`İ` becomes two code points). So two
  dedup keys of the sync (services/dbService.ts:547,551) that differ only in another
  capital, such as `Ā`, `Ł`, Greek or Cyrillic, are one key in the source and two in
  the model. The same holds for the patient search (components/PatientList.tsx:43-44).
- ClinicalHistory.PrescriptionPanel.UpdateMedication: requires an index within the
  list. The source calls it only from rendered rows; it would also create a holey array
  for an index past the end.
