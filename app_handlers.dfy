/**
 * The application's handlers: each calls the store in order, stops at the first call
 * that throws (the handler's catch only raises an alert) and updates the lists the
 * screen shows. Each handler is specified by a transition on the pair (screen lists,
 * store tables); the reloads the application runs afterwards are given as the lists
 * they return.
 */
module AppHandlers {
  import opened Basics
  import opened Text
  import opened Seqs
  import opened Records
  import opened DbMappers
  import opened LabSync
  import opened DbService
  import opened App

  /** What the screen holds: the patient list, the selection, the beds, the selected patient's results, the discharge archive. */
  datatype View = View(
    patients: seq<Patient>,
    selected: Option<Patient>,
    beds: seq<BedData>,
    patientResults: seq<LabResult>,
    dischargeHistory: seq<DischargedPatient>)

  /** The lists `loadData` fetches; `None` when a fetch throws and the lists are left as they are. */
  datatype Reload = Reload(patients: seq<Patient>, beds: seq<BedData>, history: seq<DischargedPatient>)

  function LoadInto(v: View, reload: Option<Reload>): View {
    if reload.Some? then v.(patients := reload.value.patients, beds := reload.value.beds, dischargeHistory := reload.value.history)
    else v
  }

  // ---- the store calls, with and without a configured store ----

  function CreateCall(on: bool, t: Tables, f: Faults, r: LabResult, pid: string): (Outcome<LabResult>, Tables) {
    if on then CreateLabResultStep(t, f, r, pid) else (Offline, t)
  }

  function DeleteLabCall(on: bool, t: Tables, f: Faults, id: string): (Outcome<bool>, Tables) {
    if on then DeleteLabResultStep(t, f, id) else (Offline, t)
  }

  function UpdateBedCall(on: bool, t: Tables, f: Faults, bed: BedData): (Outcome<BedData>, Tables) {
    if on then UpdateBedStep(t, f, bed) else (Offline, t)
  }

  function SyncCall(on: bool, t: Tables, f: Faults, pid: string, sections: seq<LabSection>): (Outcome<()>, Tables) {
    if on then SyncStep(t, f, pid, sections) else (Offline, t)
  }

  function AssignCall(on: bool, t: Tables, f: Faults, patient: Patient, payload: BedPayload): (Outcome<bool>, Tables) {
    if on then AssignStep(t, f, patient, payload) else (Offline, t)
  }

  function DischargeCall(on: bool, t: Tables, f: Faults, today: string, bed: BedData): (Outcome<DischargedPatient>, Tables) {
    if on then DischargeStep(t, f, today, bed) else (Offline, t)
  }

  function DeletePatientCall(on: bool, t: Tables, f: Faults, id: string): (Outcome<bool>, Tables) {
    if on then DeletePatientStep(t, f, id) else (Offline, t)
  }

  /** Newest first, as `fetchPatientDetails` orders the lab results. */
  predicate NewestFirst(a: LabResult, b: LabResult) {
    StrLe(b.date, a.date)
  }

  /** The lab results `fetchPatientDetails` returns: none without a store or when the read fails, else the patient's results newest first. */
  function FetchedLabs(on: bool, t: Tables, f: Faults, pid: string): (r: seq<LabResult>)
    ensures !on || f.detailsRead ==> r == []
    ensures on && !f.detailsRead ==> multiset(r) == multiset(PatientLabs(t, pid))
  {
    if !on || f.detailsRead then [] else SortBy(PatientLabs(t, pid), NewestFirst)
  }

  // ---- the list updates ----

  /** The patient list with the patient of `p`'s id replaced by `p`. */
  function ReplacePatient(patients: seq<Patient>, p: Patient): seq<Patient> {
    seq(|patients|, k requires 0 <= k < |patients| => if patients[k].id == p.id then p else patients[k])
  }

  /**
   * Replacing a patient keeps the ids in order; `p` is listed afterwards exactly when its
   * id was; a patient of another id is listed exactly when it was before; with unique
   * ids, `p` is listed once.
   */
  lemma ReplacePatientMeaning(patients: seq<Patient>, p: Patient)
    ensures var r := ReplacePatient(patients, p);
      && |r| == |patients|
      && (forall k :: 0 <= k < |patients| ==> r[k].id == patients[k].id)
      && (p in r <==> exists k :: 0 <= k < |patients| && patients[k].id == p.id)
      && (forall q: Patient :: q.id != p.id ==> (q in r <==> q in patients))
      && ((forall i, j :: 0 <= i < j < |patients| ==> patients[i].id != patients[j].id) ==>
            forall i, j :: 0 <= i < |r| && 0 <= j < |r| && r[i] == p && r[j] == p ==> i == j)
  {
    var r := ReplacePatient(patients, p);
    forall q: Patient | q.id != p.id
      ensures q in r <==> q in patients
    {
      if q in r {
        var k :| 0 <= k < |r| && r[k] == q;
      }
      if q in patients {
        var k :| 0 <= k < |patients| && patients[k] == q;
        assert r[k] == q;
      }
    }
    if p in r {
      var k :| 0 <= k < |r| && r[k] == p;
      assert patients[k].id == p.id;
    }
  }

  function NotPatient(id: string): Patient -> bool {
    (p: Patient) => p.id != id
  }

  function HasResultId(id: string): LabResult -> bool {
    (r: LabResult) => r.id == id
  }

  function NotResultId(id: string): LabResult -> bool {
    (r: LabResult) => r.id != id
  }

  // ---- the handlers as transitions ----

  function CreatePatientFlow(v: View, created: Option<Patient>): View {
    if created.Some? then v.(patients := [created.value] + v.patients) else v
  }

  function UpdatePatientFlow(v: View, updated: Option<Patient>): View {
    if updated.None? then v
    else
      var p := updated.value;
      v.(patients := ReplacePatient(v.patients, p),
         selected := if v.selected.Some? && v.selected.value.id == p.id then updated else v.selected)
  }

  function DeletePatientFlow(v: View, t: Tables, on: bool, f: Faults, id: string, reloadedBeds: Option<seq<BedData>>): (View, Tables) {
    var (o, t1) := DeletePatientCall(on, t, f, id);
    if o.Thrown? then (v, t1)
    else
      var v1 := v.(patients := Filter(v.patients, NotPatient(id)),
                   selected := if v.selected.Some? && v.selected.value.id == id then None else v.selected);
      (if reloadedBeds.Some? then v1.(beds := reloadedBeds.value) else v1, t1)
  }

  /**
   * `handleUpdateBed`: the bed is written; when it names a patient, the snapshot is
   * synced and, for the selected patient, the results are fetched again; the bed read
   * back replaces the listed bed with its id.
   */
  function UpdateBedFlow(v: View, t: Tables, on: bool, f: Faults, bed: BedData): (View, Tables) {
    var (res, t1) := UpdateBedCall(on, t, f, bed);
    if res.Thrown? then (v, t1)
    else if !Truthy(bed.patientId) then (ShowBed(v, res), t1)
    else
      var pid := bed.patientId.value;
      var (s, t2) := SyncCall(on, t1, f, pid, bed.labSections);
      if s.Thrown? then (v, t2)
      else
        var v1 := if v.selected.Some? && v.selected.value.id == pid then v.(patientResults := FetchedLabs(on, t2, f, pid)) else v;
        (ShowBed(v1, res), t2)
  }

  function ShowBed(v: View, res: Outcome<BedData>): View {
    if res.Done? then v.(beds := ReplaceBed(v.beds, res.value)) else v
  }

  /**
   * `handleAddLabResult`: the record is created; for a patient in a listed bed the metric
   * is merged into the bed's snapshot and the bed goes through `handleUpdateBed`;
   * otherwise the created record is put in front of the results.
   */
  function AddLabFlow(v: View, t: Tables, on: bool, f: Faults, r: LabResult, today: string): (View, Tables) {
    if v.selected.None? then (v, t)
    else
      var (c, t1) := CreateCall(on, t, f, r, v.selected.value.id);
      if c.Thrown? then (v, t1)
      else
        var bed := AssignedBed(v.selected, v.beds);
        if bed.Some? then UpdateBedFlow(v, t1, on, f, bed.value.(labSections := MergeMetric(bed.value.labSections, MetricOfResult(r), today)))
        else (if c.Done? then v.(patientResults := [c.value] + v.patientResults) else v, t1)
  }

  /**
   * `handleDeleteLabResult`: the record is deleted and dropped from the results; for a
   * patient in a listed bed, the snapshot is stripped of the test on the record's date,
   * and the bed goes through `handleUpdateBed` when that changed it.
   */
  function DeleteLabFlow(v: View, t: Tables, on: bool, f: Faults, id: string): (View, Tables) {
    var target := Find(v.patientResults, HasResultId(id));
    var (o, t1) := DeleteLabCall(on, t, f, id);
    if o.Thrown? then (v, t1)
    else
      var v1 := v.(patientResults := Filter(v.patientResults, NotResultId(id)));
      var bed := AssignedBed(v.selected, v.beds);
      if target.Some? && v.selected.Some? && bed.Some? then
        var finals := Stripped(bed.value.labSections, target.value.date, target.value.testName);
        if finals != bed.value.labSections then UpdateBedFlow(v1, t1, on, f, bed.value.(labSections := finals)) else (v1, t1)
      else (v1, t1)
  }

  /** `handleAssignPatientToBed`: the snapshot is built from the fetched details, the admission is written, the lists are reloaded. */
  function AssignFlow(v: View, t: Tables, on: bool, f: Faults, patient: Patient, payload: BedPayload,
                      evolutions: seq<EvolutionNote>, today: string, age: int, reload: Option<Reload>): (View, Tables) {
    var labs := FetchedLabs(on, t, f, patient.id);
    var (o, t1) := AssignCall(on, t, f, patient, AdmissionPayload(payload, patient, evolutions, labs, today, age));
    if o.Thrown? then (v, t1) else (LoadInto(v, reload), t1)
  }

  /** `handleDischargePatient`: the archived entry goes in front of the history, then the lists are reloaded. */
  function DischargeFlow(v: View, t: Tables, on: bool, f: Faults, bed: BedData, today: string, reload: Option<Reload>): (View, Tables) {
    var (o, t1) := DischargeCall(on, t, f, today, bed);
    if o.Done? then (LoadInto(v.(dischargeHistory := [o.value] + v.dischargeHistory), reload), t1) else (v, t1)
  }

  // ---- the application state ----

  class AppState {
    var patients: seq<Patient>
    var selectedPatient: Option<Patient>
    var beds: seq<BedData>
    var patientResults: seq<LabResult>
    var dischargeHistory: seq<DischargedPatient>
    const store: Store

    function Screen(): View
      reads this
    {
      View(patients, selectedPatient, beds, patientResults, dischargeHistory)
    }

    constructor (store: Store)
      ensures this.store == store && Screen() == View([], None, [], [], [])
    {
      this.store := store;
      patients := [];
      selectedPatient := None;
      beds := [];
      patientResults := [];
      dischargeHistory := [];
    }

    /** The bed shown for the selected patient. */
    method AssignedBedOf() returns (bed: Option<BedData>)
      ensures bed == AssignedBed(selectedPatient, beds)
    {
      bed := None;
      if selectedPatient.Some? && TruthyId(selectedPatient.value.bedId) {
        bed := Find(beds, HasId(selectedPatient.value.bedId.value));
      }
    }

    method Select(p: Option<Patient>)
      modifies this
      ensures Screen() == old(Screen()).(selected := p)
    {
      selectedPatient := p;
    }

    /** `handleCreatePatient`, given what `createPatient` returned. */
    method CreatePatient(created: Option<Patient>)
      modifies this
      ensures Screen() == CreatePatientFlow(old(Screen()), created)
    {
      if created.Some? {
        patients := [created.value] + patients;
      }
    }

    /** `handleUpdatePatient`, given what `updatePatient` returned. */
    method UpdatePatient(updated: Option<Patient>)
      modifies this
      ensures Screen() == UpdatePatientFlow(old(Screen()), updated)
    {
      if updated.Some? {
        patients := ReplacePatient(patients, updated.value);
        if selectedPatient.Some? && selectedPatient.value.id == updated.value.id {
          selectedPatient := updated;
        }
      }
    }

    /** `handleDeletePatient`; `reloadedBeds` is what the bed fetch after it returns. */
    method DeletePatient(id: string, f: Faults, reloadedBeds: Option<seq<BedData>>)
      modifies this, store
      ensures (Screen(), store.Snapshot()) == DeletePatientFlow(old(Screen()), old(store.Snapshot()), store.configured, f, id, reloadedBeds)
    {
      var o := store.DeletePatient(id, f);
      if o.Thrown? {
        return;
      }
      patients := Filter(patients, NotPatient(id));
      if selectedPatient.Some? && selectedPatient.value.id == id {
        selectedPatient := None;
      }
      if reloadedBeds.Some? {
        beds := reloadedBeds.value;
      }
    }

    /** `handleUpdateBed` */
    method UpdateBed(bed: BedData, f: Faults)
      modifies this, store
      ensures (Screen(), store.Snapshot()) == UpdateBedFlow(old(Screen()), old(store.Snapshot()), store.configured, f, bed)
    {
      ghost var t0 := store.Snapshot();
      var result := store.UpdateBed(bed, f);
      assert (result, store.Snapshot()) == UpdateBedCall(store.configured, t0, f, bed);
      if result.Thrown? {
        return;
      }
      if Truthy(bed.patientId) {
        ghost var t1 := store.Snapshot();
        var synced := store.SyncBedLabsToResults(bed.patientId.value, bed.labSections, f);
        assert (synced, store.Snapshot()) == SyncCall(store.configured, t1, f, bed.patientId.value, bed.labSections);
        if synced.Thrown? {
          return;
        }
        if selectedPatient.Some? && selectedPatient.value.id == bed.patientId.value {
          patientResults := FetchedLabs(store.configured, store.Snapshot(), f, bed.patientId.value);
        }
      }
      if result.Done? {
        beds := ReplaceBed(beds, result.value);
      }
    }

    /** `handleAddLabResult`; `today` is the calendar date of the call. */
    method AddLabResult(newResult: LabResult, today: string, f: Faults)
      modifies this, store
      ensures (Screen(), store.Snapshot()) == AddLabFlow(old(Screen()), old(store.Snapshot()), store.configured, f, newResult, today)
    {
      if selectedPatient.None? {
        return;
      }
      var created := store.CreateLabResult(newResult, selectedPatient.value.id, f);
      if created.Thrown? {
        return;
      }
      var bedSyncTriggeredRefresh := false;
      var currentBed := AssignedBedOf();
      if currentBed.Some? {
        var metric := MetricOfResult(newResult);
        var updatedSections := currentBed.value.labSections;
        var sectionIndex := FindIndex(updatedSections, DayTarget(today));
        if sectionIndex.Some? {
          var target := updatedSections[sectionIndex.value];
          updatedSections := updatedSections[sectionIndex.value := target.(metrics := target.metrics + [metric])];
        } else {
          updatedSections := [DaySection(today, metric)] + updatedSections;
        }
        UpdateBed(currentBed.value.(labSections := updatedSections), f);
        bedSyncTriggeredRefresh := true;
      }
      if created.Done? && !bedSyncTriggeredRefresh {
        patientResults := [created.value] + patientResults;
      }
    }

    /** `handleDeleteLabResult` */
    method DeleteLabResult(id: string, f: Faults)
      modifies this, store
      ensures (Screen(), store.Snapshot()) == DeleteLabFlow(old(Screen()), old(store.Snapshot()), store.configured, f, id)
    {
      var resultToDelete := Find(patientResults, HasResultId(id));
      var deleted := store.DeleteLabResult(id, f);
      if deleted.Thrown? {
        return;
      }
      patientResults := Filter(patientResults, NotResultId(id));
      var currentBed := AssignedBedOf();
      if resultToDelete.Some? && selectedPatient.Some? && currentBed.Some? {
        var finalSections, bedModified := StripDeletedResult(currentBed.value.labSections, resultToDelete.value);
        if bedModified {
          UpdateBed(currentBed.value.(labSections := finalSections), f);
        }
      }
    }

    /**
     * `handleAssignPatientToBed`; `evolutions` are the patient's notes newest first,
     * `age` the year difference the clock gives, `reload` what `loadData` fetches.
     */
    method AssignPatientToBed(patient: Patient, payload: BedPayload, evolutions: seq<EvolutionNote>, today: string, age: int,
                              f: Faults, reload: Option<Reload>)
      modifies this, store
      ensures (Screen(), store.Snapshot())
        == AssignFlow(old(Screen()), old(store.Snapshot()), store.configured, f, patient, payload, evolutions, today, age, reload)
    {
      var labs := FetchedLabs(store.configured, store.Snapshot(), f, patient.id);
      var finalBedData := AdmissionPayload(payload, patient, evolutions, labs, today, age);
      var o := store.AssignPatientToBed(patient, finalBedData, f);
      if o.Thrown? {
        return;
      }
      Load(reload);
    }

    /** `handleDischargePatient` */
    method DischargePatient(bed: BedData, today: string, f: Faults, reload: Option<Reload>)
      modifies this, store
      ensures (Screen(), store.Snapshot()) == DischargeFlow(old(Screen()), old(store.Snapshot()), store.configured, f, bed, today, reload)
    {
      var dischargedRecord := store.DischargePatient(bed, today, f);
      if dischargedRecord.Done? {
        dischargeHistory := [dischargedRecord.value] + dischargeHistory;
        Load(reload);
      }
    }

    /** `loadData`: the fetched lists replace the shown ones. */
    method Load(reload: Option<Reload>)
      modifies this
      ensures Screen() == LoadInto(old(Screen()), reload)
    {
      if reload.Some? {
        patients := reload.value.patients;
        beds := reload.value.beds;
        dischargeHistory := reload.value.history;
      }
    }
  }

  // ---- properties ----

  /** A failed bed write leaves the screen and the tables as they were: no sync, no refresh. */
  lemma UpdateBedWriteFails(v: View, t: Tables, f: Faults, bed: BedData)
    requires f.bedWrite || bed.id !in t.beds
    ensures UpdateBedFlow(v, t, true, f, bed) == (v, t)
  {
  }

  /**
   * A bed without a patient is written and shown, and nothing is synced: the bed with its
   * id is replaced by the one read back, which carries the new snapshot; every other bed
   * and every other list stays as it was.
   */
  lemma UpdateBedWithoutPatient(v: View, t: Tables, f: Faults, bed: BedData)
    requires !f.bedWrite && bed.id in t.beds && t.beds[bed.id].id == bed.id && !Truthy(bed.patientId)
    ensures var (v1, t1) := UpdateBedFlow(v, t, true, f, bed);
      && t1.labs == t.labs && t1.nextLabId == t.nextLabId && t1.patients == t.patients
      && v1.patients == v.patients && v1.selected == v.selected && v1.patientResults == v.patientResults
      && |v1.beds| == |v.beds|
      && (forall k :: 0 <= k < |v.beds| && v.beds[k].id != bed.id ==> v1.beds[k] == v.beds[k])
      && (forall k :: 0 <= k < |v.beds| && v.beds[k].id == bed.id ==> v1.beds[k].id == bed.id && v1.beds[k].labSections == bed.labSections)
  {
  }

  /**
   * A bed with a patient is written and its snapshot synced: the records inserted are
   * exactly the new-keyed metrics of the snapshot, and the selected patient's results
   * are fetched again after the inserts.
   */
  lemma UpdateBedSyncs(v: View, t: Tables, bed: BedData)
    requires bed.id in t.beds && t.beds[bed.id].id == bed.id && Truthy(bed.patientId)
    ensures var pid := bed.patientId.value;
      var written := UpdateBedStep(t, NoFaults, bed).1;
      var (v1, t1) := UpdateBedFlow(v, t, true, NoFaults, bed);
      && t1 == InsertLabs(written, pid, RecordsOf(Filter(Entries(bed.labSections), NewIn(ExistingKeys(written.labs, pid)))))
      && (v.selected.Some? && v.selected.value.id == pid ==> v1.patientResults == FetchedLabs(true, t1, NoFaults, pid))
      && (!(v.selected.Some? && v.selected.value.id == pid) ==> v1.patientResults == v.patientResults)
      && |v1.beds| == |v.beds|
      && (forall k :: 0 <= k < |v.beds| && v.beds[k].id != bed.id ==> v1.beds[k] == v.beds[k])
  {
    SyncInsertsExactlyNew(UpdateBedStep(t, NoFaults, bed).1, bed.patientId.value, bed.labSections);
  }

  /**
   * When only the synchroniser's read of the keys fails, every metric of the snapshot is
   * inserted again, and the refreshed results of the selected patient show every copy.
   */
  lemma UpdateBedKeysLostShowsRepeats(v: View, t: Tables, bed: BedData)
    requires bed.id in t.beds && t.beds[bed.id].id == bed.id && Truthy(bed.patientId)
    requires v.selected.Some? && v.selected.value.id == bed.patientId.value
    ensures var pid := bed.patientId.value;
      var f := NoFaults.(keyRead := true);
      var written := UpdateBedStep(t, f, bed).1;
      var (v1, t1) := UpdateBedFlow(v, t, true, f, bed);
      && t1 == InsertLabs(written, pid, RecordsOf(Entries(bed.labSections)))
      && v1.patientResults == FetchedLabs(true, t1, f, pid)
      && |v1.patientResults| == |PatientLabs(written, pid)| + |Entries(bed.labSections)|
  {
    var pid := bed.patientId.value;
    var f := NoFaults.(keyRead := true);
    var written := UpdateBedStep(t, f, bed).1;
    SyncWithoutKeysInsertsAll(written, f, pid, bed.labSections);
    var t1 := InsertLabs(written, pid, RecordsOf(Entries(bed.labSections)));
    InsertThenRead(written, pid, RecordsOf(Entries(bed.labSections)));
    var fetched := FetchedLabs(true, t1, f, pid);
    assert |fetched| == |multiset(fetched)| == |PatientLabs(t1, pid)|;
  }

  /**
   * After an update the saved patient is listed exactly when its id was, every patient of
   * another id stays listed or unlisted as before, and a selected patient of that id is
   * replaced; nothing is shown when the update returns nothing.
   */
  lemma UpdatePatientShows(v: View, updated: Option<Patient>)
    ensures updated.None? ==> UpdatePatientFlow(v, updated) == v
    ensures updated.Some? ==>
      var p := updated.value;
      var v1 := UpdatePatientFlow(v, updated);
      && (p in v1.patients <==> exists k :: 0 <= k < |v.patients| && v.patients[k].id == p.id)
      && (forall q: Patient :: q.id != p.id ==> (q in v1.patients <==> q in v.patients))
      && (v.selected.Some? && v.selected.value.id == p.id ==> v1.selected == Some(p))
      && (!(v.selected.Some? && v.selected.value.id == p.id) ==> v1.selected == v.selected)
      && v1.beds == v.beds && v1.patientResults == v.patientResults && v1.dischargeHistory == v.dischargeHistory
  {
    if updated.Some? {
      ReplacePatientMeaning(v.patients, updated.value);
    }
  }

  /** Without a selected patient, adding a result does nothing. */
  lemma AddLabWithoutSelection(v: View, t: Tables, on: bool, f: Faults, r: LabResult, today: string)
    requires v.selected.None?
    ensures AddLabFlow(v, t, on, f, r, today) == (v, t)
  {
  }

  /** For a patient not in a listed bed, the created record is put in front of the results and is on file under the next id. */
  lemma AddLabWithoutBed(v: View, t: Tables, f: Faults, r: LabResult, today: string)
    requires v.selected.Some? && AssignedBed(v.selected, v.beds).None? && !f.labWrite
    ensures var pid := v.selected.value.id;
      var (v1, t1) := AddLabFlow(v, t, true, f, r, today);
      && v1 == v.(patientResults := [r.(id := NatToString(t.nextLabId))] + v.patientResults)
      && PatientLabs(t1, pid) == PatientLabs(t, pid) + [r.(id := NatToString(t.nextLabId))]
      && t1.beds == t.beds
  {
    CreateThenRead(t, f, r, v.selected.value.id);
  }

  /** The key of a created record is on file for its patient afterwards. */
  lemma CreatedKeyOnFile(t: Tables, r: LabResult, pid: string)
    ensures Key(r.date, r.testName) in ExistingKeys(CreateLabResultStep(t, NoFaults, r, pid).1.labs, pid)
  {
    var labs := CreateLabResultStep(t, NoFaults, r, pid).1.labs;
    assert labs == t.labs + [LabInsertRow(r, pid, t.nextLabId)];
    ExistingKeysMember(labs, pid, |t.labs|);
  }

  /**
   * Adding today's result for a patient in a listed bed whose day sections are all
   * dated today syncs the snapshot without inserting the result a second time: the
   * records inserted are those the snapshot without the new metric would have produced.
   */
  lemma AddLabNoDuplicate(v: View, t: Tables, r: LabResult, today: string)
    requires v.selected.Some? && r.date == today
    requires AssignedBed(v.selected, v.beds).Some?
    requires var b := AssignedBed(v.selected, v.beds).value;
      && b.id in t.beds && b.patientId == Some(v.selected.value.id) && v.selected.value.id != ""
      && forall k :: 0 <= k < |b.labSections| && IsDayTarget(today, b.labSections[k]) ==> b.labSections[k].date == today
    ensures var pid := v.selected.value.id;
      var b := AssignedBed(v.selected, v.beds).value;
      var written := UpdateBedStep(CreateLabResultStep(t, NoFaults, r, pid).1, NoFaults,
        b.(labSections := MergeMetric(b.labSections, MetricOfResult(r), today))).1;
      AddLabFlow(v, t, true, NoFaults, r, today).1 == InsertLabs(written, pid, Planned(ExistingKeys(written.labs, pid), b.labSections))
  {
    var pid := v.selected.value.id;
    var b := AssignedBed(v.selected, v.beds).value;
    var m := MetricOfResult(r);
    var created := CreateLabResultStep(t, NoFaults, r, pid).1;
    var written := UpdateBedStep(created, NoFaults, b.(labSections := MergeMetric(b.labSections, m, today))).1;
    CreatedKeyOnFile(t, r, pid);
    assert written.labs == created.labs;
    var existing := ExistingKeys(written.labs, pid);
    var idx := FindIndex(b.labSections, DayTarget(today));
    if idx.Some? {
      MergeOnFileAddsNothing(existing, b.labSections, m, today, idx.value);
    } else {
      NewDayOnFileAddsNothing(existing, b.labSections, m, today);
    }
  }

  /** A failed delete leaves everything as it was; otherwise the record leaves the results. */
  lemma DeleteLabDropsResult(v: View, t: Tables, f: Faults, id: string)
    ensures f.labWrite ==> DeleteLabFlow(v, t, true, f, id) == (v, t)
    ensures !f.labWrite && AssignedBed(v.selected, v.beds).None? ==>
      DeleteLabFlow(v, t, true, f, id).0.patientResults == Filter(v.patientResults, NotResultId(id))
  {
  }

  /** When stripping leaves the bed's snapshot as it was, the bed is not written and nothing is synced. */
  lemma DeleteLabBedUntouched(v: View, t: Tables, f: Faults, id: string)
    requires !f.labWrite && AssignedBed(v.selected, v.beds).Some?
    requires var target := Find(v.patientResults, HasResultId(id)); var b := AssignedBed(v.selected, v.beds).value;
      target.Some? ==> Stripped(b.labSections, target.value.date, target.value.testName) == b.labSections
    ensures DeleteLabFlow(v, t, true, f, id)
      == (v.(patientResults := Filter(v.patientResults, NotResultId(id))), DeleteLabResultStep(t, f, id).1)
  {
  }

  /**
   * When stripping changes the snapshot of a bed without a patient, the bed with its id
   * is shown with the stripped snapshot.
   */
  lemma DeleteLabStripsBed(v: View, t: Tables, f: Faults, id: string)
    requires !f.labWrite && !f.bedWrite && v.selected.Some? && AssignedBed(v.selected, v.beds).Some?
    requires var target := Find(v.patientResults, HasResultId(id)); var b := AssignedBed(v.selected, v.beds).value;
      && target.Some? && Stripped(b.labSections, target.value.date, target.value.testName) != b.labSections
      && b.id in t.beds && t.beds[b.id].id == b.id && !Truthy(b.patientId)
    ensures var target := Find(v.patientResults, HasResultId(id)).value; var b := AssignedBed(v.selected, v.beds).value;
      var v1 := DeleteLabFlow(v, t, true, f, id).0;
      forall k :: 0 <= k < |v1.beds| && v.beds[k].id == b.id ==>
        v1.beds[k].labSections == Stripped(b.labSections, target.date, target.testName)
  {
    var target := Find(v.patientResults, HasResultId(id)).value;
    var b := AssignedBed(v.selected, v.beds).value;
    var v0 := v.(patientResults := Filter(v.patientResults, NotResultId(id)));
    UpdateBedWithoutPatient(v0, DeleteLabResultStep(t, f, id).1, f, b.(labSections := Stripped(b.labSections, target.date, target.testName)));
  }

  /** Deleting a patient takes the patient off the list and out of the selection. */
  lemma DeletePatientClearsLists(v: View, t: Tables, f: Faults, id: string, reloadedBeds: Option<seq<BedData>>)
    requires !f.patientWrite
    ensures var v1 := DeletePatientFlow(v, t, true, f, id, reloadedBeds).0;
      && (forall k :: 0 <= k < |v1.patients| ==> v1.patients[k].id != id)
      && (forall k :: 0 <= k < |v.patients| && v.patients[k].id != id ==> v.patients[k] in v1.patients)
      && (v1.selected.Some? ==> v1.selected.value.id != id)
  {
    var v1 := DeletePatientFlow(v, t, true, f, id, reloadedBeds).0;
    forall k | 0 <= k < |v1.patients| ensures v1.patients[k].id != id {
      assert NotPatient(id)(v1.patients[k]);
    }
    forall k | 0 <= k < |v.patients| && v.patients[k].id != id ensures v.patients[k] in v1.patients {
      assert NotPatient(id)(v.patients[k]);
    }
  }

  /** A discharge that archives puts the archived entry in front of the history; one that fails changes nothing. */
  lemma DischargeShowsEntry(v: View, t: Tables, f: Faults, bed: BedData, today: string)
    ensures f.archiveInsert ==> DischargeFlow(v, t, true, f, bed, today, None) == (v, t)
    ensures !f.archiveInsert ==>
      var v1 := DischargeFlow(v, t, true, f, bed, today, None).0;
      && v1.dischargeHistory == [MapDischarge(ArchiveRow(bed, today))] + v.dischargeHistory
      && v1.dischargeHistory[0].id == bed.id && v1.dischargeHistory[0].labSections == bed.labSections
      && v1.beds == v.beds && v1.patients == v.patients
  {
    ArchiveRoundTrip(bed, today);
  }

  /**
   * An admission writes the snapshot built from the store's own records: the bed shows
   * the admission condition, today's date and the lab sections of the patient's newest
   * results, and the patient is linked to the bed.
   */
  lemma AssignWritesSnapshot(v: View, t: Tables, patient: Patient, payload: BedPayload, evolutions: seq<EvolutionNote>,
                             today: string, age: int, reload: Option<Reload>)
    requires payload.id in t.beds && patient.id in t.patients
    ensures var t1 := AssignFlow(v, t, true, NoFaults, patient, payload, evolutions, today, age, reload).1;
      var row := t1.beds[payload.id];
      && row.status == Occupied && row.patientId == Some(patient.id)
      && row.diagnosis == Some(AdmissionCondition(evolutions, patient)) && row.admissionDate == Some(today)
      && row.labSections == Some(AdmissionSections(FetchedLabs(true, t, NoFaults, patient.id)))
      && t1.patients[patient.id].bedId == Some(payload.id)
      && t1.labs == t.labs
  {
  }

  /** Every fetched result of a patient has its key on file for that patient. */
  lemma FetchedKeysOnFile(t: Tables, pid: string, k: nat)
    requires k < |FetchedLabs(true, t, NoFaults, pid)|
    ensures var l := FetchedLabs(true, t, NoFaults, pid)[k]; Key(l.date, l.testName) in ExistingKeys(t.labs, pid)
  {
    var fetched := FetchedLabs(true, t, NoFaults, pid);
    var records := PatientLabs(t, pid);
    assert fetched[k] in multiset(records);
    var j :| 0 <= j < |records| && records[j] == fetched[k];
    PatientLabsKeysOnFile(t, pid, j);
  }

  /** Syncing the admission snapshot later inserts nothing: its metrics come from records already on file. */
  lemma AdmissionSnapshotOnFile(t: Tables, pid: string)
    ensures Planned(ExistingKeys(t.labs, pid), AdmissionSections(FetchedLabs(true, t, NoFaults, pid))) == []
  {
    var fetched := FetchedLabs(true, t, NoFaults, pid);
    forall k | 0 <= k < |fetched| ensures Key(fetched[k].date, fetched[k].testName) in ExistingKeys(t.labs, pid) {
      FetchedKeysOnFile(t, pid, k);
    }
    AdmissionResyncsNothing(ExistingKeys(t.labs, pid), fetched);
  }

  /** The fetched results are ordered newest first. */
  lemma FetchedNewestFirst(t: Tables, f: Faults, pid: string)
    ensures SortedBy(FetchedLabs(true, t, f, pid), NewestFirst)
  {
    StrLeIsTotalPreorder();
    assert TotalPreorder(NewestFirst) by {
      forall a: LabResult, b: LabResult ensures NewestFirst(a, b) || NewestFirst(b, a) {
        StrLeTotal(a.date, b.date);
      }
      forall a: LabResult, b: LabResult, c: LabResult | NewestFirst(a, b) && NewestFirst(b, c) ensures NewestFirst(a, c) {
        StrLeTransitive(c.date, b.date, a.date);
      }
    }
    if !f.detailsRead {
      SortBySorted(PatientLabs(t, pid), NewestFirst);
    }
  }
}
