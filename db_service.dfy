/**
 * The data service over an in-memory store of four tables: patients, beds, lab results
 * and the discharge archive.
 *
 * What the remote store answers is a parameter: a `Faults` value says which requests
 * report an error. Every operation's effect is given twice: as a transition function
 * on a `Tables` value (the `...Step` functions, about which the lemmas speak) and as a
 * method of the `Store` class, which updates the tables in place and is proved to
 * agree with its transition function.
 */
module DbService {
  import opened Basics
  import opened Text
  import opened Seqs
  import opened Records
  import opened DbMappers
  import opened LabSync

  /** Which of the store's requests report an error. */
  datatype Faults = Faults(
    patientRead: bool,                 // the bed lookup of a patient finds no row
    patientWrite: bool,                // an update or delete on patients fails
    bedWrite: bool,                    // an update on beds fails
    archiveInsert: bool,               // the insert into the discharge archive fails
    keyRead: bool,                     // the synchroniser's read of the existing keys returns no data
    detailsRead: bool,                 // the lab read of `fetchPatientDetails` returns no data
    labWrite: bool,                    // creating or deleting a lab result fails
    syncInsertFailsAt: Option<nat>)    // the synchroniser's insert number k (from 0) fails

  const NoFaults := Faults(false, false, false, false, false, false, false, None)

  /** A service call returns a value, returns early because no store is configured, or throws. */
  datatype Outcome<T> = Done(value: T) | Offline | Thrown

  datatype Tables = Tables(
    patients: map<string, Patient>,
    beds: map<int, BedRow>,
    labs: seq<LabRow>,
    nextLabId: nat,
    discharges: seq<DischargeRow>)

  // ---- row edits ----

  /** `patients.update({bed_id}).eq('id', pid)`: a missing patient is no error and changes nothing. */
  function SetPatientBed(t: Tables, pid: string, bedId: Option<int>): (r: Tables)
    ensures r.beds == t.beds && r.labs == t.labs && r.nextLabId == t.nextLabId && r.discharges == t.discharges
    ensures r.patients.Keys == t.patients.Keys
  {
    if pid in t.patients then t.(patients := t.patients[pid := t.patients[pid].(bedId := bedId)]) else t
  }

  /** A bed reset to available: patient and every snapshot column cleared. */
  function Vacated(row: BedRow): BedRow {
    row.(status := Available, patientId := None, diagnosis := None, admissionDate := None,
         clinicalSummary := None, plan := None, carePlan := Unset, labSections := None)
  }

  function ReleaseBed(t: Tables, id: int): (r: Tables)
    ensures r.patients == t.patients && r.labs == t.labs && r.nextLabId == t.nextLabId && r.discharges == t.discharges
    ensures r.beds.Keys == t.beds.Keys
  {
    if id in t.beds then t.(beds := t.beds[id := Vacated(t.beds[id])]) else t
  }

  /** `Some(v)` overwrites a column; `None` (an undefined field) leaves it as it is. */
  function Overwrite<T>(column: Option<T>, field: Option<T>): Option<T> {
    if field.Some? then field else column
  }

  /** A bed taken by `pid` with the admission snapshot of `payload`. */
  function Occupy(row: BedRow, pid: string, payload: BedPayload): BedRow {
    row.(status := Occupied, patientId := Some(pid),
         diagnosis := Overwrite(row.diagnosis, payload.condition),
         admissionDate := Overwrite(row.admissionDate, payload.admissionDate),
         clinicalSummary := Overwrite(row.clinicalSummary, payload.clinicalSummary),
         plan := Overwrite(row.plan, payload.plan),
         carePlan := if payload.carePlan.Some? then Plan(payload.carePlan.value) else row.carePlan,
         labSections := Overwrite(row.labSections, payload.labSections))
  }

  /** The name of the patient a bed row points at, as the join on patients finds it. */
  function JoinedName(t: Tables, row: BedRow): Option<string> {
    if row.patientId.Some? && row.patientId.value in t.patients then Some(t.patients[row.patientId.value].name) else None
  }

  /** The rows inserted for `recs`, numbered from `first`. */
  function LabRows(recs: seq<LabResult>, pid: string, first: nat): (rows: seq<LabRow>)
    ensures |rows| == |recs|
  {
    seq(|recs|, k requires 0 <= k < |recs| => LabInsertRow(recs[k], pid, first + k))
  }

  function InsertLabs(t: Tables, pid: string, recs: seq<LabResult>): Tables {
    t.(labs := t.labs + LabRows(recs, pid, t.nextLabId), nextLabId := t.nextLabId + |recs|)
  }

  /** The lab results on file for `pid`, as records, in table order. */
  function PatientLabs(t: Tables, pid: string): seq<LabResult> {
    RecordsOfRows(Filter(t.labs, OwnedBy(pid)))
  }

  function OwnedBy(pid: string): LabRow -> bool {
    (row: LabRow) => row.patientId == pid
  }

  function NotOwnedBy(pid: string): LabRow -> bool {
    (row: LabRow) => row.patientId != pid
  }

  function NotNumbered(id: string): LabRow -> bool {
    (row: LabRow) => NatToString(row.id) != id
  }

  function RecordsOfRows(rows: seq<LabRow>): (r: seq<LabResult>)
    ensures |r| == |rows|
    ensures forall k :: 0 <= k < |rows| ==> r[k] == MapLabResult(rows[k])
  {
    seq(|rows|, k requires 0 <= k < |rows| => MapLabResult(rows[k]))
  }

  // ---- transitions ----

  /** `createLabResult`: one row inserted under a fresh id, read back as a record. */
  function CreateLabResultStep(t: Tables, f: Faults, r: LabResult, pid: string): (Outcome<LabResult>, Tables) {
    if f.labWrite then (Thrown, t)
    else
      var row := LabInsertRow(r, pid, t.nextLabId);
      (Done(MapLabResult(row)), t.(labs := t.labs + [row], nextLabId := t.nextLabId + 1))
  }

  /** `deleteLabResult`: the row with that id is removed. */
  function DeleteLabResultStep(t: Tables, f: Faults, id: string): (Outcome<bool>, Tables) {
    if f.labWrite then (Thrown, t) else (Done(true), t.(labs := Filter(t.labs, NotNumbered(id))))
  }

  /**
   * `assignPatientToBed`: the patient's bed id is written first and a failure there
   * throws before the bed is touched; then the bed becomes occupied with the snapshot.
   * There is no check that the bed is free or that the patient has no bed.
   */
  function AssignStep(t: Tables, f: Faults, patient: Patient, payload: BedPayload): (Outcome<bool>, Tables) {
    if f.patientWrite then (Thrown, t)
    else
      var t1 := SetPatientBed(t, patient.id, Some(payload.id));
      if f.bedWrite then (Thrown, t1)
      else if payload.id in t1.beds then
        (Done(true), t1.(beds := t1.beds[payload.id := Occupy(t1.beds[payload.id], patient.id, payload)]))
      else (Done(true), t1)
  }

  /**
   * `updateBed`: the snapshot columns are written from the bed as the application holds
   * it and the row is read back; a missing row or a failed write throws.
   */
  function UpdateBedStep(t: Tables, f: Faults, bed: BedData): (Outcome<BedData>, Tables) {
    if f.bedWrite || bed.id !in t.beds then (Thrown, t)
    else
      var row := t.beds[bed.id].(diagnosis := bed.condition, admissionDate := bed.admissionDate,
        clinicalSummary := Some(bed.clinicalSummary), plan := Some(bed.plan),
        carePlan := bed.carePlan, labSections := Some(bed.labSections));
      var t1 := t.(beds := t.beds[bed.id := row]);
      (Done(MapBed(row, JoinedName(t1, row))), t1)
  }

  /** The keys the synchroniser starts from; a failed read gives none. */
  function SyncKeys(t: Tables, f: Faults, pid: string): set<string> {
    if f.keyRead then {} else ExistingKeys(t.labs, pid)
  }

  /**
   * Inserting the records `plan` in order, when insert number `failsAt` (if any) fails:
   * the records before it stay inserted and the call throws.
   */
  function InsertStep(t: Tables, pid: string, plan: seq<LabResult>, failsAt: Option<nat>): (Outcome<()>, Tables) {
    if failsAt.Some? && failsAt.value < |plan| then (Thrown, InsertLabs(t, pid, plan[..failsAt.value]))
    else (Done(()), InsertLabs(t, pid, plan))
  }

  /** Inserting one record appends its row under the next id. */
  lemma InsertOne(t: Tables, pid: string, rec: LabResult)
    ensures InsertLabs(t, pid, [rec]) == t.(labs := t.labs + [LabInsertRow(rec, pid, t.nextLabId)], nextLabId := t.nextLabId + 1)
  {
    assert LabRows([rec], pid, t.nextLabId) == [LabInsertRow(rec, pid, t.nextLabId)];
  }

  /** Inserting no record changes nothing. */
  lemma InsertNone(t: Tables, pid: string)
    ensures InsertLabs(t, pid, []) == t
  {
    assert LabRows([], pid, t.nextLabId) == [] && t.labs + [] == t.labs;
  }

  /** `syncBedLabsToResults`: reads the keys on file, then inserts the planned records in order. */
  function SyncStep(t: Tables, f: Faults, pid: string, sections: seq<LabSection>): (Outcome<()>, Tables) {
    InsertStep(t, pid, Planned(SyncKeys(t, f, pid), sections), f.syncInsertFailsAt)
  }

  /**
   * `dischargePatient`: the archive row is inserted first and a failure there throws.
   * Then the patient's bed id is cleared (when the bed names a patient) and the bed is
   * vacated; failures of these two writes are not reported.
   */
  function DischargeStep(t: Tables, f: Faults, today: string, bed: BedData): (Outcome<DischargedPatient>, Tables) {
    if f.archiveInsert then (Thrown, t)
    else
      var entry := ArchiveRow(bed, today);
      var t1 := t.(discharges := t.discharges + [entry]);
      var t2 := if Truthy(bed.patientId) && !f.patientWrite then SetPatientBed(t1, bed.patientId.value, None) else t1;
      var t3 := if !f.bedWrite then ReleaseBed(t2, bed.id) else t2;
      (Done(MapDischarge(entry)), t3)
  }

  /** The bed id the lookup of `deletePatient` finds. */
  function HeldBed(t: Tables, f: Faults, id: string): Option<int> {
    if f.patientRead || id !in t.patients then None else t.patients[id].bedId
  }

  /**
   * `deletePatient`: a held bed is vacated (without an archive entry), the patient's
   * lab results are deleted, then the patient; only the last failure is reported.
   */
  function DeletePatientStep(t: Tables, f: Faults, id: string): (Outcome<bool>, Tables) {
    var bedId := HeldBed(t, f, id);
    var t1 := if TruthyId(bedId) && !f.bedWrite then ReleaseBed(t, bedId.value) else t;
    var t2 := if f.labWrite then t1 else t1.(labs := Filter(t1.labs, NotOwnedBy(id)));
    if f.patientWrite then (Thrown, t2) else (Done(true), t2.(patients := t2.patients - {id}))
  }

  // ---- the store ----

  class Store {
    /** Whether a remote store is configured; without one every call returns at once. */
    const configured: bool
    var patients: map<string, Patient>
    var beds: map<int, BedRow>
    var labs: seq<LabRow>
    var nextLabId: nat
    var discharges: seq<DischargeRow>

    function Snapshot(): Tables
      reads this
    {
      Tables(patients, beds, labs, nextLabId, discharges)
    }

    constructor (configured: bool, initial: Tables)
      ensures this.configured == configured && Snapshot() == initial
    {
      this.configured := configured;
      patients := initial.patients;
      beds := initial.beds;
      labs := initial.labs;
      nextLabId := initial.nextLabId;
      discharges := initial.discharges;
    }

    method CreateLabResult(r: LabResult, pid: string, f: Faults) returns (outcome: Outcome<LabResult>)
      modifies this
      ensures configured ==> (outcome, Snapshot()) == CreateLabResultStep(old(Snapshot()), f, r, pid)
      ensures !configured ==> outcome == Offline && Snapshot() == old(Snapshot())
    {
      if !configured {
        return Offline;
      }
      if f.labWrite {
        return Thrown;
      }
      var row := LabInsertRow(r, pid, nextLabId);
      labs := labs + [row];
      nextLabId := nextLabId + 1;
      outcome := Done(MapLabResult(row));
    }

    method DeleteLabResult(id: string, f: Faults) returns (outcome: Outcome<bool>)
      modifies this
      ensures configured ==> (outcome, Snapshot()) == DeleteLabResultStep(old(Snapshot()), f, id)
      ensures !configured ==> outcome == Offline && Snapshot() == old(Snapshot())
    {
      if !configured {
        return Offline;
      }
      if f.labWrite {
        return Thrown;
      }
      labs := Filter(labs, NotNumbered(id));
      outcome := Done(true);
    }

    method AssignPatientToBed(patient: Patient, payload: BedPayload, f: Faults) returns (outcome: Outcome<bool>)
      modifies this
      ensures configured ==> (outcome, Snapshot()) == AssignStep(old(Snapshot()), f, patient, payload)
      ensures !configured ==> outcome == Offline && Snapshot() == old(Snapshot())
    {
      if !configured {
        return Offline;
      }
      if f.patientWrite {
        return Thrown;
      }
      if patient.id in patients {
        patients := patients[patient.id := patients[patient.id].(bedId := Some(payload.id))];
      }
      if f.bedWrite {
        return Thrown;
      }
      if payload.id in beds {
        beds := beds[payload.id := Occupy(beds[payload.id], patient.id, payload)];
      }
      outcome := Done(true);
    }

    method UpdateBed(bed: BedData, f: Faults) returns (outcome: Outcome<BedData>)
      modifies this
      ensures configured ==> (outcome, Snapshot()) == UpdateBedStep(old(Snapshot()), f, bed)
      ensures !configured ==> outcome == Offline && Snapshot() == old(Snapshot())
    {
      if !configured {
        return Offline;
      }
      if f.bedWrite || bed.id !in beds {
        return Thrown;
      }
      var row := beds[bed.id].(diagnosis := bed.condition, admissionDate := bed.admissionDate,
        clinicalSummary := Some(bed.clinicalSummary), plan := Some(bed.plan),
        carePlan := bed.carePlan, labSections := Some(bed.labSections));
      beds := beds[bed.id := row];
      outcome := Done(MapBed(row, JoinedName(Snapshot(), row)));
    }

    /** The synchroniser: the keys on file are read once, then the new metrics are inserted. */
    method SyncBedLabsToResults(pid: string, sections: seq<LabSection>, f: Faults) returns (outcome: Outcome<()>)
      modifies this
      ensures configured ==> (outcome, Snapshot()) == SyncStep(old(Snapshot()), f, pid, sections)
      ensures !configured ==> outcome == Offline && Snapshot() == old(Snapshot())
    {
      if !configured {
        return Offline;
      }
      var existing := SyncKeys(Snapshot(), f, pid);
      outcome := InsertNewMetrics(pid, sections, existing, f.syncInsertFailsAt);
    }

    /**
     * The walk over the sections, in order: every metric whose key is not in
     * `existing` is inserted; insert number `failsAt` throws.
     */
    method InsertNewMetrics(pid: string, sections: seq<LabSection>, existing: set<string>, failsAt: Option<nat>)
      returns (outcome: Outcome<()>)
      requires configured
      modifies this
      ensures (outcome, Snapshot()) == InsertStep(old(Snapshot()), pid, Planned(existing, sections), failsAt)
    {
      ghost var t0 := Snapshot();
      ghost var done: seq<LabResult> := [];
      var start := nextLabId;
      var i := 0;
      while i < |sections|
        invariant 0 <= i <= |sections|
        invariant done == PlanOf(existing, Entries(sections[..i]))
        invariant Snapshot() == InsertLabs(t0, pid, done) && nextLabId == start + |done|
        invariant failsAt.Some? ==> |done| <= failsAt.value
      {
        outcome := InsertSectionAt(pid, existing, sections, i, failsAt, nextLabId - start, t0, done);
        if outcome.Thrown? {
          return;
        }
        done := PlanOf(existing, Entries(sections[..i + 1]));
        i := i + 1;
      }
      TakeAll(sections);
      InsertStepAll(t0, pid, done, failsAt);
      outcome := Done(());
    }

    /**
     * One turn of the outer loop: section `i`, after the records `done` of the sections
     * before it have been inserted (`inserted` of them) into `t0`.
     */
    method InsertSectionAt(pid: string, existing: set<string>, sections: seq<LabSection>, i: nat, failsAt: Option<nat>,
                           inserted: nat, ghost t0: Tables, ghost done: seq<LabResult>)
      returns (outcome: Outcome<()>)
      requires configured && i < |sections|
      requires done == PlanOf(existing, Entries(sections[..i])) && inserted == |done|
      requires Snapshot() == InsertLabs(t0, pid, done)
      requires failsAt.Some? ==> |done| <= failsAt.value
      modifies this
      ensures outcome.Thrown? ==> (outcome, Snapshot()) == InsertStep(t0, pid, Planned(existing, sections), failsAt)
      ensures !outcome.Thrown? ==>
        var next := PlanOf(existing, Entries(sections[..i + 1]));
        Snapshot() == InsertLabs(t0, pid, next) && nextLabId == t0.nextLabId + |next| &&
        (failsAt.Some? ==> |next| <= failsAt.value)
    {
      PlannedStep(existing, sections, i);
      ghost var added := SectionPlan(existing, sections[i]);
      InsertStepThen(t0, pid, done, added, failsAt);
      outcome := InsertSection(pid, existing, sections[i], Shift(failsAt, inserted));
      if outcome.Thrown? {
        EntriesPrefix(sections, i + 1);
        PlanPrefix(existing, Entries(sections[..i + 1]), Entries(sections));
        PrefixRest(done + added, Planned(existing, sections));
        InsertStepExtend(t0, pid, done + added, Planned(existing, sections)[|done + added|..], failsAt);
      }
    }

    /**
     * The inner loop over the metrics of one section, in order; insert number `failsAt`,
     * counted from the start of the section, throws.
     */
    method InsertSection(pid: string, existing: set<string>, section: LabSection, failsAt: Option<nat>)
      returns (outcome: Outcome<()>)
      requires configured
      modifies this
      ensures (outcome, Snapshot()) == InsertStep(old(Snapshot()), pid, SectionPlan(existing, section), failsAt)
    {
      ghost var t0 := Snapshot();
      ghost var done: seq<LabResult> := [];
      var start := nextLabId;
      var j := 0;
      TakeNone(section.metrics);
      while j < |section.metrics|
        invariant 0 <= j <= |section.metrics|
        invariant done == PlanOf(existing, SectionEntries(section, section.metrics[..j]))
        invariant Snapshot() == InsertLabs(t0, pid, done) && nextLabId == start + |done|
        invariant failsAt.Some? ==> |done| <= failsAt.value
      {
        outcome := InsertMetric(pid, existing, section, j, failsAt, nextLabId - start, t0, done);
        if outcome.Thrown? {
          return;
        }
        done := PlanOf(existing, SectionEntries(section, section.metrics[..j + 1]));
        j := j + 1;
      }
      TakeAll(section.metrics);
      InsertStepAll(t0, pid, done, failsAt);
      outcome := Done(());
    }

    /**
     * One turn of the inner loop: metric `j` of `section`, after the records `done` of
     * the metrics before it have been inserted (`inserted` of them) into `t0`.
     */
    method InsertMetric(pid: string, existing: set<string>, section: LabSection, j: nat, failsAt: Option<nat>,
                        inserted: nat, ghost t0: Tables, ghost done: seq<LabResult>)
      returns (outcome: Outcome<()>)
      requires configured && j < |section.metrics|
      requires done == PlanOf(existing, SectionEntries(section, section.metrics[..j])) && inserted == |done|
      requires Snapshot() == InsertLabs(t0, pid, done)
      requires failsAt.Some? ==> |done| <= failsAt.value
      modifies this
      ensures outcome.Thrown? ==> (outcome, Snapshot()) == InsertStep(t0, pid, SectionPlan(existing, section), failsAt)
      ensures !outcome.Thrown? ==>
        var next := PlanOf(existing, SectionEntries(section, section.metrics[..j + 1]));
        Snapshot() == InsertLabs(t0, pid, next) && nextLabId == t0.nextLabId + |next| &&
        (failsAt.Some? ==> |next| <= failsAt.value)
    {
      SectionPlanStep(existing, section, j);
      ghost var added := Added(existing, (section, section.metrics[j]));
      InsertStepThen(t0, pid, done, added, failsAt);
      outcome := InsertIfNew(pid, existing, section, section.metrics[j], Shift(failsAt, inserted));
      if outcome.Thrown? {
        SectionPlanPrefix(existing, section, j + 1);
        PrefixRest(done + added, SectionPlan(existing, section));
        InsertStepExtend(t0, pid, done + added, SectionPlan(existing, section)[|done + added|..], failsAt);
      }
    }

    /**
     * One metric of the walk: when its key is new its record is created through
     * `CreateLabResult`, which fails when `failsAt` is 0, that is, when this is the
     * failing insert.
     */
    method InsertIfNew(pid: string, existing: set<string>, section: LabSection, metric: LabMetric, failsAt: Option<nat>)
      returns (outcome: Outcome<()>)
      requires configured
      modifies this
      ensures (outcome, Snapshot()) == InsertStep(old(Snapshot()), pid, Added(existing, (section, metric)), failsAt)
    {
      if Key(section.date, metric.name) !in existing {
        var rec := SyncedRecord(section, metric);
        assert Added(existing, (section, metric)) == [rec];
        var created := CreateLabResult(rec, pid, NoFaults.(labWrite := failsAt == Some(0)));
        InsertOne(old(Snapshot()), pid, rec);
        InsertNone(old(Snapshot()), pid);
        outcome := if created.Thrown? then Thrown else Done(());
      } else {
        assert Added(existing, (section, metric)) == [];
        InsertNone(Snapshot(), pid);
        outcome := Done(());
      }
    }

    method DischargePatient(bed: BedData, today: string, f: Faults) returns (outcome: Outcome<DischargedPatient>)
      modifies this
      ensures configured ==> (outcome, Snapshot()) == DischargeStep(old(Snapshot()), f, today, bed)
      ensures !configured ==> outcome == Offline && Snapshot() == old(Snapshot())
    {
      if !configured {
        return Offline;
      }
      if f.archiveInsert {
        return Thrown;
      }
      var entry := ArchiveRow(bed, today);
      discharges := discharges + [entry];
      if Truthy(bed.patientId) && !f.patientWrite && bed.patientId.value in patients {
        patients := patients[bed.patientId.value := patients[bed.patientId.value].(bedId := None)];
      }
      if !f.bedWrite && bed.id in beds {
        beds := beds[bed.id := Vacated(beds[bed.id])];
      }
      outcome := Done(MapDischarge(entry));
    }

    method DeletePatient(id: string, f: Faults) returns (outcome: Outcome<bool>)
      modifies this
      ensures configured ==> (outcome, Snapshot()) == DeletePatientStep(old(Snapshot()), f, id)
      ensures !configured ==> outcome == Offline && Snapshot() == old(Snapshot())
    {
      if !configured {
        return Offline;
      }
      var bedId := if f.patientRead || id !in patients then None else patients[id].bedId;
      if TruthyId(bedId) && !f.bedWrite && bedId.value in beds {
        beds := beds[bedId.value := Vacated(beds[bedId.value])];
      }
      if !f.labWrite {
        labs := Filter(labs, NotOwnedBy(id));
      }
      if f.patientWrite {
        return Thrown;
      }
      patients := patients - {id};
      outcome := Done(true);
    }
  }

  /** The insert number `failsAt` counted from `n` inserts on. */
  function Shift(failsAt: Option<nat>, n: nat): (r: Option<nat>)
    ensures r.Some? <==> failsAt.Some? && failsAt.value >= n
    ensures r.Some? ==> r.value + n == failsAt.value
  {
    if failsAt.Some? && failsAt.value >= n then Some(failsAt.value - n) else None
  }

  /** Inserting `a + b` is inserting `a` completely, then `b` with the fault counted on from `|a|`. */
  lemma InsertStepThen(t: Tables, pid: string, a: seq<LabResult>, b: seq<LabResult>, failsAt: Option<nat>)
    requires failsAt.Some? ==> |a| <= failsAt.value
    ensures InsertStep(t, pid, a + b, failsAt) == InsertStep(InsertLabs(t, pid, a), pid, b, Shift(failsAt, |a|))
  {
    if failsAt.Some? && failsAt.value < |a + b| {
      var k := failsAt.value - |a|;
      assert (a + b)[..failsAt.value] == a + b[..k];
      InsertLabsAppend(t, pid, a, b[..k]);
    } else {
      InsertLabsAppend(t, pid, a, b);
    }
  }

  /** Inserting `plan` completes when no insert among its own fails. */
  lemma InsertStepAll(t: Tables, pid: string, plan: seq<LabResult>, failsAt: Option<nat>)
    requires failsAt.Some? ==> |plan| <= failsAt.value
    ensures InsertStep(t, pid, plan, failsAt) == (Done(()), InsertLabs(t, pid, plan))
  {
  }

  /** An insert that fails within `p` fails the same way within any extension of `p`. */
  lemma InsertStepExtend(t: Tables, pid: string, p: seq<LabResult>, q: seq<LabResult>, failsAt: Option<nat>)
    requires InsertStep(t, pid, p, failsAt).0.Thrown?
    ensures InsertStep(t, pid, p + q, failsAt) == InsertStep(t, pid, p, failsAt)
  {
    assert (p + q)[..failsAt.value] == p[..failsAt.value];
  }

  /** When insert number `|done|` of `plan` fails, exactly the records `done` before it stay inserted. */
  lemma InsertStepFails(t: Tables, pid: string, done: seq<LabResult>, added: seq<LabResult>, plan: seq<LabResult>, failsAt: Option<nat>)
    requires added != [] && done + added <= plan && failsAt == Some(|done|)
    ensures InsertStep(t, pid, plan, failsAt) == (Thrown, InsertLabs(t, pid, done))
  {
    PrefixTake(done, done + added);
    PrefixTake(done + added, plan);
    PrefixTake(done, plan);
  }

  /** Inserting `a` and then `b` inserts `a + b`. */
  lemma InsertLabsAppend(t: Tables, pid: string, a: seq<LabResult>, b: seq<LabResult>)
    ensures InsertLabs(InsertLabs(t, pid, a), pid, b) == InsertLabs(t, pid, a + b)
  {
    var x := LabRows(a + b, pid, t.nextLabId);
    var y := LabRows(a, pid, t.nextLabId) + LabRows(b, pid, t.nextLabId + |a|);
    assert |x| == |y|;
    forall k | 0 <= k < |x| ensures x[k] == y[k] {
      if k < |a| {
        assert (a + b)[k] == a[k];
      } else {
        assert (a + b)[k] == b[k - |a|];
      }
    }
    assert x == y;
  }

  // ---- properties ----

  /**
   * The patient and bed tables agree: a patient's bed names that patient, a bed's
   * patient exists and names that bed, and exactly the occupied beds name a patient.
   */
  predicate Linked(t: Tables) {
    && (forall pid :: pid in t.patients && t.patients[pid].bedId.Some? ==>
          t.patients[pid].bedId.value in t.beds && t.beds[t.patients[pid].bedId.value].patientId == Some(pid))
    && (forall b :: b in t.beds && t.beds[b].patientId.Some? ==>
          t.beds[b].patientId.value in t.patients && t.patients[t.beds[b].patientId.value].bedId == Some(b))
    && (forall b :: b in t.beds ==> (t.beds[b].status == Occupied <==> t.beds[b].patientId.Some?))
  }

  /** Admission: the patient's bed id is written first; the bed is occupied with the snapshot only when both writes succeed. */
  lemma AssignEffect(t: Tables, f: Faults, patient: Patient, payload: BedPayload)
    ensures var (o, t1) := AssignStep(t, f, patient, payload);
      && (f.patientWrite ==> o == Thrown && t1 == t)
      && (!f.patientWrite ==>
            && t1.patients.Keys == t.patients.Keys
            && (patient.id in t.patients ==> t1.patients[patient.id] == t.patients[patient.id].(bedId := Some(payload.id)))
            && (forall q :: q in t.patients && q != patient.id ==> t1.patients[q] == t.patients[q])
            && t1.labs == t.labs && t1.nextLabId == t.nextLabId && t1.discharges == t.discharges)
      && (!f.patientWrite && f.bedWrite ==> o == Thrown && t1.beds == t.beds)
      && (!f.patientWrite && !f.bedWrite ==>
            && o == Done(true) && t1.beds.Keys == t.beds.Keys
            && (payload.id in t.beds ==>
                  var row := t1.beds[payload.id];
                  && row.status == Occupied && row.patientId == Some(patient.id)
                  && (payload.condition.Some? ==> row.diagnosis == payload.condition)
                  && (payload.admissionDate.Some? ==> row.admissionDate == payload.admissionDate)
                  && (payload.clinicalSummary.Some? ==> row.clinicalSummary == payload.clinicalSummary)
                  && (payload.plan.Some? ==> row.plan == payload.plan)
                  && (payload.carePlan.Some? ==> row.carePlan == Plan(payload.carePlan.value))
                  && (payload.labSections.Some? ==> row.labSections == payload.labSections))
            && (forall b :: b in t.beds && b != payload.id ==> t1.beds[b] == t.beds[b]))
  {
  }

  /** Admitting a patient without a bed to an available bed keeps the tables linked. */
  lemma AssignKeepsLinked(t: Tables, patient: Patient, payload: BedPayload)
    requires Linked(t)
    requires patient.id in t.patients && t.patients[patient.id].bedId == None
    requires payload.id in t.beds && t.beds[payload.id].status == Available
    ensures Linked(AssignStep(t, NoFaults, patient, payload).1)
  {
    var t1 := AssignStep(t, NoFaults, patient, payload).1;
    forall b | b in t1.beds && t1.beds[b].patientId.Some?
      ensures t1.beds[b].patientId.value in t1.patients && t1.patients[t1.beds[b].patientId.value].bedId == Some(b)
    {
      if b != payload.id {
        assert t1.beds[b] == t.beds[b];
        var q := t.beds[b].patientId.value;
        assert q != patient.id;
      }
    }
  }

  /** There is no availability check: admitting to an occupied bed leaves its former patient pointing at a bed that names someone else. */
  lemma AssignToOccupiedBreaksLink(t: Tables, patient: Patient, payload: BedPayload)
    requires Linked(t)
    requires payload.id in t.beds && t.beds[payload.id].patientId.Some? && t.beds[payload.id].patientId.value != patient.id
    ensures !Linked(AssignStep(t, NoFaults, patient, payload).1)
  {
    var t1 := AssignStep(t, NoFaults, patient, payload).1;
    var q := t.beds[payload.id].patientId.value;
    assert t1.patients[q].bedId == Some(payload.id);
    assert t1.beds[payload.id].patientId == Some(patient.id);
  }

  /** A failed bed write after the patient write leaves the patient pointing at a bed that does not name them. */
  lemma AssignBedWriteLostBreaksLink(t: Tables, f: Faults, patient: Patient, payload: BedPayload)
    requires Linked(t) && !f.patientWrite && f.bedWrite
    requires patient.id in t.patients && t.patients[patient.id].bedId == None
    requires payload.id in t.beds && t.beds[payload.id].status == Available
    ensures !Linked(AssignStep(t, f, patient, payload).1)
  {
    var t1 := AssignStep(t, f, patient, payload).1;
    assert t1.patients[patient.id].bedId == Some(payload.id);
    assert t1.beds[payload.id].patientId == None;
  }

  /**
   * Discharge: a failed archive insert throws with nothing written; otherwise the archive
   * row is appended, the patient's bed id is cleared and the bed is vacated, each unless
   * its own write fails, and the call returns the archived entry.
   */
  lemma DischargeEffect(t: Tables, f: Faults, today: string, bed: BedData)
    ensures var (o, t1) := DischargeStep(t, f, today, bed);
      && (f.archiveInsert ==> o == Thrown && t1 == t)
      && (!f.archiveInsert ==>
            && o.Done? && o.value.id == bed.id && o.value.status == Available && o.value.dischargeDate == today
            && o.value.patientName == bed.patientName && o.value.condition == bed.condition
            && o.value.clinicalSummary == bed.clinicalSummary && o.value.plan == bed.plan
            && o.value.labSections == bed.labSections
            && t1.discharges == t.discharges + [ArchiveRow(bed, today)]
            && t1.labs == t.labs && t1.nextLabId == t.nextLabId
            && t1.patients.Keys == t.patients.Keys && t1.beds.Keys == t.beds.Keys
            && (forall q :: q in t.patients && (!Truthy(bed.patientId) || q != bed.patientId.value) ==> t1.patients[q] == t.patients[q])
            && (forall b :: b in t.beds && b != bed.id ==> t1.beds[b] == t.beds[b])
            && (Truthy(bed.patientId) && bed.patientId.value in t.patients ==>
                  t1.patients[bed.patientId.value] ==
                    (if f.patientWrite then t.patients[bed.patientId.value] else t.patients[bed.patientId.value].(bedId := None)))
            && (bed.id in t.beds ==> t1.beds[bed.id] == (if f.bedWrite then t.beds[bed.id] else Vacated(t.beds[bed.id]))))
  {
    ArchiveRoundTrip(bed, today);
  }

  /** A vacated bed is available and names no patient, and every snapshot column is empty. */
  lemma VacatedIsEmpty(row: BedRow)
    ensures var v := Vacated(row);
      && v.status == Available && v.patientId == None && v.diagnosis == None && v.admissionDate == None
      && v.clinicalSummary == None && v.plan == None && v.carePlan == Unset && v.labSections == None
      && v.id == row.id
  {
  }

  /** Discharging a bed as the store holds it keeps the tables linked. */
  lemma DischargeKeepsLinked(t: Tables, today: string, bed: BedData)
    requires Linked(t)
    requires bed.id in t.beds && bed.patientId == t.beds[bed.id].patientId
    requires bed.patientId.Some? ==> bed.patientId.value != ""
    ensures Linked(DischargeStep(t, NoFaults, today, bed).1)
  {
    var t1 := DischargeStep(t, NoFaults, today, bed).1;
    forall pid | pid in t1.patients && t1.patients[pid].bedId.Some?
      ensures t1.patients[pid].bedId.value in t1.beds && t1.beds[t1.patients[pid].bedId.value].patientId == Some(pid)
    {
      assert t.beds[bed.id].patientId == bed.patientId;
      assert t.patients[pid].bedId.value != bed.id;
    }
  }

  /** When the patient write of a discharge fails, the patient keeps pointing at the bed that was vacated. */
  lemma DischargeLostPatientWriteBreaksLink(t: Tables, f: Faults, today: string, bed: BedData)
    requires Linked(t) && !f.archiveInsert && f.patientWrite && !f.bedWrite
    requires bed.id in t.beds && bed.patientId == t.beds[bed.id].patientId && Truthy(bed.patientId)
    ensures !Linked(DischargeStep(t, f, today, bed).1)
  {
    var t1 := DischargeStep(t, f, today, bed).1;
    var p := bed.patientId.value;
    assert t1.patients[p].bedId == Some(bed.id);
    assert t1.beds[bed.id].patientId == None;
  }

  /**
   * Deleting a patient: the bed the lookup finds is vacated unless its write fails, no
   * archive row is written, the patient's lab rows go unless their delete fails, and the
   * patient row goes unless its delete fails, which is the only failure reported.
   */
  lemma DeletePatientEffect(t: Tables, f: Faults, id: string)
    ensures var (o, t1) := DeletePatientStep(t, f, id);
      && t1.discharges == t.discharges && t1.nextLabId == t.nextLabId && t1.beds.Keys == t.beds.Keys
      && (o == Thrown <==> f.patientWrite) && (o.Done? ==> o == Done(true))
      && (f.patientWrite ==> t1.patients == t.patients)
      && (!f.patientWrite ==> t1.patients == t.patients - {id})
      && (f.labWrite ==> t1.labs == t.labs)
      && (!f.labWrite ==> forall k :: 0 <= k < |t1.labs| ==> t1.labs[k].patientId != id && t1.labs[k] in t.labs)
      && (!f.labWrite ==> forall k :: 0 <= k < |t.labs| && t.labs[k].patientId != id ==> t.labs[k] in t1.labs)
      && (forall b :: b in t.beds && Some(b) != HeldBed(t, f, id) ==> t1.beds[b] == t.beds[b])
      && (!f.patientRead && !f.bedWrite && id in t.patients && TruthyId(t.patients[id].bedId) && t.patients[id].bedId.value in t.beds ==>
            t1.beds[t.patients[id].bedId.value] == Vacated(t.beds[t.patients[id].bedId.value]))
  {
  }

  /** Deleting a patient keeps the tables linked (a bed held under id 0 is falsy and would not be released). */
  lemma DeleteKeepsLinked(t: Tables, id: string)
    requires Linked(t)
    requires id in t.patients ==> t.patients[id].bedId != Some(0)
    ensures Linked(DeletePatientStep(t, NoFaults, id).1)
  {
    var t1 := DeletePatientStep(t, NoFaults, id).1;
    forall b | b in t1.beds && t1.beds[b].patientId.Some?
      ensures t1.beds[b].patientId.value in t1.patients && t1.patients[t1.beds[b].patientId.value].bedId == Some(b)
    {
      assert t.beds[b].patientId.value != id;
    }
  }

  /** When the final patient delete fails, the patient stays and points at the bed that was vacated. */
  lemma DeletePatientWriteLostBreaksLink(t: Tables, f: Faults, id: string)
    requires Linked(t) && !f.patientRead && !f.bedWrite && f.patientWrite
    requires id in t.patients && TruthyId(t.patients[id].bedId)
    ensures !Linked(DeletePatientStep(t, f, id).1)
  {
    var t1 := DeletePatientStep(t, f, id).1;
    var b := t.patients[id].bedId.value;
    assert t1.patients[id].bedId == Some(b);
    assert t1.beds[b].patientId == None;
  }

  /** Created lab results are read back with the id the store handed out, after the patient's earlier results. */
  lemma CreateThenRead(t: Tables, f: Faults, r: LabResult, pid: string)
    requires !f.labWrite
    ensures var (o, t1) := CreateLabResultStep(t, f, r, pid);
      && o == Done(r.(id := NatToString(t.nextLabId)))
      && PatientLabs(t1, pid) == PatientLabs(t, pid) + [r.(id := NatToString(t.nextLabId))]
      && t1.nextLabId == t.nextLabId + 1
  {
    var row := LabInsertRow(r, pid, t.nextLabId);
    LabInsertRoundTrip(r, pid, t.nextLabId);
    FilterAppend(t.labs, [row], OwnedBy(pid));
    assert Filter([row], OwnedBy(pid)) == [row];
    var before := Filter(t.labs, OwnedBy(pid));
    assert RecordsOfRows(before + [row]) == RecordsOfRows(before) + [MapLabResult(row)];
  }

  /** After an insert run, the patient's results are the earlier ones followed by each inserted record under its new id. */
  lemma InsertThenRead(t: Tables, pid: string, recs: seq<LabResult>)
    ensures PatientLabs(InsertLabs(t, pid, recs), pid)
      == PatientLabs(t, pid) + seq(|recs|, k requires 0 <= k < |recs| => recs[k].(id := NatToString(t.nextLabId + k)))
  {
    var rows := LabRows(recs, pid, t.nextLabId);
    LabRowsReadBack(recs, pid, t.nextLabId);
    FilterAppend(t.labs, rows, OwnedBy(pid));
    RowsOwned(recs, pid, t.nextLabId);
    RecordsOfRowsAppend(Filter(t.labs, OwnedBy(pid)), rows);
  }

  /** Every inserted row belongs to `pid`, and row k reads back as record k under the id `first + k`. */
  lemma LabRowsReadBack(recs: seq<LabResult>, pid: string, first: nat)
    ensures var rows := LabRows(recs, pid, first);
      && (forall k :: 0 <= k < |rows| ==> rows[k].id == first + k && rows[k].patientId == pid)
      && RecordsOfRows(rows) == seq(|recs|, k requires 0 <= k < |recs| => recs[k].(id := NatToString(first + k)))
  {
    var rows := LabRows(recs, pid, first);
    forall k | 0 <= k < |rows| ensures MapLabResult(rows[k]) == recs[k].(id := NatToString(first + k)) {
      LabInsertRoundTrip(recs[k], pid, first + k);
    }
  }

  lemma RowsOwned(recs: seq<LabResult>, pid: string, first: nat)
    ensures Filter(LabRows(recs, pid, first), OwnedBy(pid)) == LabRows(recs, pid, first)
  {
    var rows := LabRows(recs, pid, first);
    forall x | x in rows ensures OwnedBy(pid)(x) {
      var k :| 0 <= k < |rows| && rows[k] == x;
    }
    FilterAll(rows, OwnedBy(pid));
  }

  lemma RecordsOfRowsAppend(a: seq<LabRow>, b: seq<LabRow>)
    ensures RecordsOfRows(a + b) == RecordsOfRows(a) + RecordsOfRows(b)
  {
  }

  /** Deleting a lab result removes every row with that id and keeps every other row, in order. */
  lemma DeleteLabResultEffect(t: Tables, f: Faults, id: string)
    requires !f.labWrite
    ensures var (o, t1) := DeleteLabResultStep(t, f, id);
      && o == Done(true)
      && (forall k :: 0 <= k < |t1.labs| ==> NatToString(t1.labs[k].id) != id && t1.labs[k] in t.labs)
      && (forall k :: 0 <= k < |t.labs| && NatToString(t.labs[k].id) != id ==> t.labs[k] in t1.labs)
  {
  }

  /** The key of every row of `pid` is on file. */
  lemma {:induction false} ExistingKeysMember(labs: seq<LabRow>, pid: string, k: nat)
    requires k < |labs| && labs[k].patientId == pid
    ensures Key(labs[k].date, labs[k].testName) in ExistingKeys(labs, pid)
  {
    var n := |labs| - 1;
    if k < n {
      ExistingKeysMember(labs[..n], pid, k);
      assert labs[..n][k] == labs[k];
    }
  }

  /** The key of every lab result on file for `pid` is among its keys. */
  lemma PatientLabsKeysOnFile(t: Tables, pid: string, j: nat)
    requires j < |PatientLabs(t, pid)|
    ensures var l := PatientLabs(t, pid)[j]; Key(l.date, l.testName) in ExistingKeys(t.labs, pid)
  {
    var owned := Filter(t.labs, OwnedBy(pid));
    assert owned[j] in owned;
    var i :| 0 <= i < |t.labs| && t.labs[i] == owned[j];
    assert OwnedBy(pid)(owned[j]);
    ExistingKeysMember(t.labs, pid, i);
  }

  /** Every key on file for `pid` is the key of one of its rows. */
  lemma {:induction false} ExistingKeysSource(labs: seq<LabRow>, pid: string, key: string)
    requires key in ExistingKeys(labs, pid)
    ensures exists k :: 0 <= k < |labs| && labs[k].patientId == pid && Key(labs[k].date, labs[k].testName) == key
  {
    var n := |labs| - 1;
    if key in ExistingKeys(labs[..n], pid) {
      ExistingKeysSource(labs[..n], pid, key);
      var k :| 0 <= k < n && labs[..n][k].patientId == pid && Key(labs[..n][k].date, labs[..n][k].testName) == key;
      assert labs[..n][k] == labs[k];
    } else {
      assert labs[n].patientId == pid && Key(labs[n].date, labs[n].testName) == key;
    }
  }

  /** Appending rows keeps every key on file. */
  lemma KeysKept(a: seq<LabRow>, b: seq<LabRow>, pid: string, key: string)
    requires key in ExistingKeys(a, pid)
    ensures key in ExistingKeys(a + b, pid)
  {
    ExistingKeysSource(a, pid, key);
    var k :| 0 <= k < |a| && a[k].patientId == pid && Key(a[k].date, a[k].testName) == key;
    assert (a + b)[k] == a[k];
    ExistingKeysMember(a + b, pid, k);
  }

  /** The row inserted for a planned record puts its key on file. */
  lemma InsertedRowKey(t: Tables, pid: string, plan: seq<LabResult>, k: nat)
    requires k < |plan|
    ensures RecordKey(plan[k]) in ExistingKeys(InsertLabs(t, pid, plan).labs, pid)
  {
    var rows := LabRows(plan, pid, t.nextLabId);
    var labs := t.labs + rows;
    assert rows[k] == LabInsertRow(plan[k], pid, t.nextLabId + k);
    assert labs[|t.labs| + k] == rows[k];
    ExistingKeysMember(labs, pid, |t.labs| + k);
  }

  /** After inserting `plan`, the earlier keys and those of the planned records are on file. */
  lemma InsertedKeys(t: Tables, pid: string, plan: seq<LabResult>, key: string)
    requires key in ExistingKeys(t.labs, pid) || exists k :: 0 <= k < |plan| && RecordKey(plan[k]) == key
    ensures key in ExistingKeys(InsertLabs(t, pid, plan).labs, pid)
  {
    if key in ExistingKeys(t.labs, pid) {
      KeysKept(t.labs, LabRows(plan, pid, t.nextLabId), pid, key);
    } else {
      var k :| 0 <= k < |plan| && RecordKey(plan[k]) == key;
      InsertedRowKey(t, pid, plan, k);
    }
  }

  /** A sync without faults inserts exactly the records of the metrics whose key was not on file, in walk order. */
  lemma SyncInsertsExactlyNew(t: Tables, pid: string, sections: seq<LabSection>)
    ensures SyncStep(t, NoFaults, pid, sections) ==
      (Done(()), InsertLabs(t, pid, RecordsOf(Filter(Entries(sections), NewIn(ExistingKeys(t.labs, pid))))))
  {
    PlannedIsFiltered(ExistingKeys(t.labs, pid), sections);
  }

  /** When the read of the keys on file fails, every metric is inserted again. */
  lemma SyncWithoutKeysInsertsAll(t: Tables, f: Faults, pid: string, sections: seq<LabSection>)
    requires f.keyRead && f.syncInsertFailsAt == None
    ensures SyncStep(t, f, pid, sections) == (Done(()), InsertLabs(t, pid, RecordsOf(Entries(sections))))
  {
    PlannedIsFiltered({}, sections);
    FilterAll(Entries(sections), NewIn({}));
  }

  /** A second sync of the same sections inserts nothing. */
  lemma SyncIdempotent(t: Tables, pid: string, sections: seq<LabSection>)
    ensures var (o, t1) := SyncStep(t, NoFaults, pid, sections);
      o == Done(()) && SyncStep(t1, NoFaults, pid, sections) == (Done(()), t1)
  {
    var existing := ExistingKeys(t.labs, pid);
    var plan := Planned(existing, sections);
    var t1 := InsertLabs(t, pid, plan);
    forall i, j | 0 <= i < |sections| && 0 <= j < |sections[i].metrics|
      ensures Key(sections[i].date, sections[i].metrics[j].name) in ExistingKeys(t1.labs, pid)
    {
      EveryKeyCovered(existing, sections, i, j);
      InsertedKeys(t, pid, plan, Key(sections[i].date, sections[i].metrics[j].name));
    }
    PlannedNothingNew(ExistingKeys(t1.labs, pid), sections);
    assert LabRows([], pid, t1.nextLabId) == [] && t1.labs + [] == t1.labs;
  }
}
