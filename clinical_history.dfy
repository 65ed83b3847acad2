/**
 * The clinical history screen: the split of a patient's appointments into upcoming and
 * past, the prescription form's medication rows and the prescription it submits, the
 * printed medication table, and the appointment form with its cancellation.
 */
module ClinicalHistory {
  import opened Basics
  import opened Text
  import opened Seqs
  import opened Records

  // ---- appointments ----

  /** The moment `${date}T${time}` an appointment is compared by. */
  function Moment(a: Appointment): string {
    a.date + "T" + a.time
  }

  predicate MomentLe(a: Appointment, b: Appointment) {
    StrLe(Moment(a), Moment(b))
  }

  predicate Later(a: Appointment, b: Appointment) {
    StrLe(Moment(b), Moment(a))
  }

  /** Scheduled and strictly after `now`. */
  predicate IsUpcoming(a: Appointment, now: string) {
    !StrLe(Moment(a), now) && a.status == Programada
  }

  function UpcomingFilter(now: string): Appointment -> bool {
    (a: Appointment) => !StrLe(Moment(a), now) && a.status == Programada
  }

  /** At or before `now`, or no longer scheduled. */
  function PastFilter(now: string): Appointment -> bool {
    (a: Appointment) => StrLe(Moment(a), now) || a.status != Programada
  }

  /** The upcoming appointments, soonest first. */
  function Upcoming(appts: seq<Appointment>, now: string): seq<Appointment> {
    SortBy(Filter(appts, UpcomingFilter(now)), MomentLe)
  }

  /** The other appointments, latest first. */
  function Past(appts: seq<Appointment>, now: string): seq<Appointment> {
    SortBy(Filter(appts, PastFilter(now)), Later)
  }

  function NextAppointment(appts: seq<Appointment>, now: string): Option<Appointment> {
    var upcoming := Upcoming(appts, now);
    if |upcoming| > 0 then Some(upcoming[0]) else None
  }

  /** The outcome of the appointment form. */
  datatype ApptRequest = AddAppt(appt: Appointment) | UpdateAppt(appt: Appointment)

  /** The appointment form's fields (a `Partial<Appointment>`). */
  datatype ApptDraft = ApptDraft(
    date: Option<string>,
    time: Option<string>,
    doctor: Option<string>,
    reason: Option<string>,
    status: Option<AppointmentStatus>,
    location: Option<string>)

  const DefaultLocation := "Consultorio Principal"

  /** The signed-in doctor, as far as the forms use it. */
  datatype DoctorProfile = DoctorProfile(fullName: string, licenseNumber: string)

  /**
   * `handleApptSubmit`: date, time, doctor and reason must all be filled in. The id is
   * the edited appointment's, or `appt-<nowMs>` for a new one; the status defaults to
   * scheduled and the location to the main office.
   */
  function BuildAppointment(draft: ApptDraft, editingId: Option<string>, nowMs: nat): (r: Option<ApptRequest>)
    ensures r.None? <==> !(Truthy(draft.date) && Truthy(draft.time) && Truthy(draft.doctor) && Truthy(draft.reason))
    ensures r.Some? ==>
      && (r.value.UpdateAppt? <==> Truthy(editingId))
      && (Truthy(editingId) ==> r.value.appt.id == editingId.value)
      && (!Truthy(editingId) ==> r.value.appt.id == "appt-" + NatToString(nowMs))
      && r.value.appt.date == draft.date.value && r.value.appt.time == draft.time.value
      && r.value.appt.doctor == draft.doctor.value && r.value.appt.reason == draft.reason.value
      && r.value.appt.status == draft.status.GetOr(Programada)
      && (Truthy(draft.location) ==> r.value.appt.location == draft.location.value)
      && (!Truthy(draft.location) ==> r.value.appt.location == DefaultLocation)
  {
    if Truthy(draft.date) && Truthy(draft.time) && Truthy(draft.doctor) && Truthy(draft.reason) then
      var appt := Appointment(
        if Truthy(editingId) then editingId.value else "appt-" + NatToString(nowMs),
        draft.date.value, draft.time.value, draft.doctor.value, draft.reason.value,
        draft.status.GetOr(Programada),
        OrElse(draft.location, Some(DefaultLocation)).value);
      Some(if Truthy(editingId) then UpdateAppt(appt) else AddAppt(appt))
    else None
  }

  /** The copy `confirmCancel` sends: only the status changes. */
  function Cancelled(a: Appointment): Appointment {
    a.(status := Cancelada)
  }

  class AppointmentPanel {
    var newAppt: ApptDraft
    var editingApptId: Option<string>
    var apptToCancel: Option<Appointment>

    constructor (today: string)
      ensures newAppt == ApptDraft(Some(today), Some("09:00"), Some(""), Some(""), Some(Programada), Some(DefaultLocation))
      ensures editingApptId == None && apptToCancel == None
    {
      newAppt := ApptDraft(Some(today), Some("09:00"), Some(""), Some(""), Some(Programada), Some(DefaultLocation));
      editingApptId := None;
      apptToCancel := None;
    }

    /** `handleOpenAddForm`: a fresh draft for today at nine, with the doctor's name. */
    method OpenAdd(today: string, doctor: Option<DoctorProfile>)
      modifies this
      ensures editingApptId == None && apptToCancel == old(apptToCancel)
      ensures newAppt == ApptDraft(Some(today), Some("09:00"),
        Some(if doctor.Some? then doctor.value.fullName else ""), Some(""), Some(Programada), Some(DefaultLocation))
    {
      editingApptId := None;
      newAppt := ApptDraft(Some(today), Some("09:00"),
        Some(if doctor.Some? then doctor.value.fullName else ""), Some(""), Some(Programada), Some(DefaultLocation));
    }

    /** `handleOpenEditForm`: the draft is a copy of the appointment. */
    method OpenEdit(appt: Appointment)
      modifies this
      ensures editingApptId == Some(appt.id) && apptToCancel == old(apptToCancel)
      ensures newAppt == ApptDraft(Some(appt.date), Some(appt.time), Some(appt.doctor), Some(appt.reason),
        Some(appt.status), Some(appt.location))
    {
      editingApptId := Some(appt.id);
      newAppt := ApptDraft(Some(appt.date), Some(appt.time), Some(appt.doctor), Some(appt.reason),
        Some(appt.status), Some(appt.location));
    }

    method InitiateCancel(appt: Appointment)
      modifies this
      ensures apptToCancel == Some(appt) && newAppt == old(newAppt) && editingApptId == old(editingApptId)
    {
      apptToCancel := Some(appt);
    }

    /** `confirmCancel`: the pending appointment is sent back cancelled, and nothing is pending. */
    method ConfirmCancel() returns (request: Option<Appointment>)
      modifies this
      ensures old(apptToCancel).Some? ==> request == Some(Cancelled(old(apptToCancel).value)) && apptToCancel == None
      ensures old(apptToCancel).None? ==> request == None && apptToCancel == None
      ensures newAppt == old(newAppt) && editingApptId == old(editingApptId)
    {
      request := None;
      if apptToCancel.Some? {
        request := Some(Cancelled(apptToCancel.value));
        apptToCancel := None;
      }
    }

    /** `handleApptSubmit`; `nowMs` stands for `Date.now()`. */
    method Submit(nowMs: nat) returns (request: Option<ApptRequest>)
      ensures request == BuildAppointment(newAppt, editingApptId, nowMs)
    {
      request := None;
      if Truthy(newAppt.date) && Truthy(newAppt.time) && Truthy(newAppt.doctor) && Truthy(newAppt.reason) {
        var id := if Truthy(editingApptId) then editingApptId.value else "appt-" + NatToString(nowMs);
        var appointmentData := Appointment(id, newAppt.date.value, newAppt.time.value, newAppt.doctor.value,
          newAppt.reason.value, newAppt.status.GetOr(Programada), OrElse(newAppt.location, Some(DefaultLocation)).value);
        if Truthy(editingApptId) {
          request := Some(UpdateAppt(appointmentData));
        } else {
          request := Some(AddAppt(appointmentData));
        }
      }
    }
  }

  // ---- prescriptions ----

  /** The row `addMedication` appends. */
  const NewMedication := MedicationItem("", "", "", "VO", "TAB", "1")

  datatype MedField = Name | Dosage | Frequency | Route | Form | TotalQuantity

  function FieldOf(m: MedicationItem, f: MedField): string {
    match f
    case Name => m.name
    case Dosage => m.dosage
    case Frequency => m.frequency
    case Route => m.route
    case Form => m.form
    case TotalQuantity => m.totalQuantity
  }

  /** `{ ...m, [f]: v }`: field `f` becomes `v` and every other field stays. */
  function WithField(m: MedicationItem, f: MedField, v: string): (r: MedicationItem)
    ensures FieldOf(r, f) == v
    ensures forall g :: g != f ==> FieldOf(r, g) == FieldOf(m, g)
  {
    match f
    case Name => m.(name := v)
    case Dosage => m.(dosage := v)
    case Frequency => m.(frequency := v)
    case Route => m.(route := v)
    case Form => m.(form := v)
    case TotalQuantity => m.(totalQuantity := v)
  }

  /** `meds.filter((_, j) => j !== i)`: row `i` goes, the others keep their order. */
  function {:induction false} RemoveAt(meds: seq<MedicationItem>, i: nat): (r: seq<MedicationItem>)
    ensures i < |meds| ==> |r| == |meds| - 1
    ensures i >= |meds| ==> r == meds
    ensures forall k :: 0 <= k < i && k < |meds| ==> r[k] == meds[k]
    ensures forall k :: i <= k < |r| ==> r[k] == meds[k + 1]
  {
    if meds == [] then []
    else if i == 0 then meds[1..]
    else [meds[0]] + RemoveAt(meds[1..], i - 1)
  }

  const DefaultDiet := "DIETA HIPOSÓDICA E HIPOGLÚCIDA"

  /** The prescription form's state. */
  datatype PrescDraft = PrescDraft(
    weight: string,
    height: string,
    temperature: string,
    diagnosis: string,
    diet: string,
    medications: seq<MedicationItem>)

  const BlankPrescription := PrescDraft("", "", "", "", DefaultDiet, [])

  /**
   * `submitPrescription`: nothing without a diagnosis. Otherwise the prescription takes
   * the form's fields, the care plan of the patient's bed (a bed always has one, the
   * empty object included) or a blank plan, and the patient's allergies as they are now.
   */
  function BuildPrescription(form: PrescDraft, patient: Patient, doctor: Option<DoctorProfile>,
                             bed: Option<BedData>, today: string): (r: Option<Prescription>)
    ensures r.None? <==> form.diagnosis == ""
    ensures r.Some? ==>
      && r.value.id == "" && r.value.patientId == patient.id && r.value.date == today
      && r.value.diagnosis == form.diagnosis && r.value.medications == form.medications
      && r.value.allergiesSnapshot == patient.allergies
      && (bed.Some? ==> r.value.carePlan == bed.value.carePlan)
      && (bed.None? ==> r.value.carePlan == Plan(BlankCarePlan))
      && (doctor.None? ==> r.value.doctorName == "Dr. Admin" && r.value.doctorLicense == "")
      && (doctor.Some? && doctor.value.fullName != "" ==> r.value.doctorName == doctor.value.fullName)
  {
    if form.diagnosis == "" then None
    else
      var autoCarePlan := if bed.Some? then bed.value.carePlan else Plan(BlankCarePlan);
      Some(Prescription("", patient.id,
        OrDefault(if doctor.Some? then doctor.value.fullName else "", "Dr. Admin"),
        if doctor.Some? then doctor.value.licenseNumber else "",
        today, form.diagnosis, form.weight, form.height, form.temperature, form.diet,
        autoCarePlan, patient.allergies, form.medications))
  }

  class PrescriptionPanel {
    var prescForm: PrescDraft

    constructor ()
      ensures prescForm == BlankPrescription
    {
      prescForm := BlankPrescription;
    }

    /** `handleOpenPrescriptionForm`: the form starts blank. */
    method Open()
      modifies this
      ensures prescForm == BlankPrescription
    {
      prescForm := BlankPrescription;
    }

    method AddMedication()
      modifies this
      ensures prescForm == old(prescForm).(medications := old(prescForm).medications + [NewMedication])
    {
      prescForm := prescForm.(medications := prescForm.medications + [NewMedication]);
    }

    /** Row `index` is one the form lists. */
    method UpdateMedication(index: nat, field: MedField, value: string)
      requires index < |prescForm.medications|
      modifies this
      ensures prescForm == old(prescForm).(medications :=
        old(prescForm).medications[index := WithField(old(prescForm).medications[index], field, value)])
    {
      var newMeds := prescForm.medications;
      newMeds := newMeds[index := WithField(newMeds[index], field, value)];
      prescForm := prescForm.(medications := newMeds);
    }

    method RemoveMedication(index: nat)
      modifies this
      ensures prescForm == old(prescForm).(medications := RemoveAt(old(prescForm).medications, index))
    {
      var newMeds := RemoveAt(prescForm.medications, index);
      prescForm := prescForm.(medications := newMeds);
    }

    method Submit(patient: Patient, doctor: Option<DoctorProfile>, bed: Option<BedData>, today: string)
      returns (sent: Option<Prescription>)
      ensures sent == BuildPrescription(prescForm, patient, doctor, bed, today)
    {
      sent := None;
      if prescForm.diagnosis != "" {
        var autoCarePlan := if bed.Some? then bed.value.carePlan else Plan(BlankCarePlan);
        var doctorName := OrDefault(if doctor.Some? then doctor.value.fullName else "", "Dr. Admin");
        var doctorLicense := if doctor.Some? then doctor.value.licenseNumber else "";
        sent := Some(Prescription("", patient.id, doctorName, doctorLicense, today, prescForm.diagnosis,
          prescForm.weight, prescForm.height, prescForm.temperature, prescForm.diet,
          autoCarePlan, patient.allergies, prescForm.medications));
      }
    }
  }

  /**
   * The row numbers of the printed medication table: one per medication, then blank
   * rows up to fifteen; every number from 1 on appears in turn.
   */
  function PrintedRowNumbers(n: nat): (r: seq<nat>)
    ensures |r| == (if n < 15 then 15 else n)
    ensures forall k :: 0 <= k < |r| ==> r[k] == k + 1
  {
    var numbered := seq(n, i requires 0 <= i < n => i + 1);
    var blank := seq(if n < 15 then 15 - n else 0, i => n + i + 1);
    assert forall k :: n <= k < n + |blank| ==> (numbered + blank)[k] == blank[k - n];
    numbered + blank
  }

  // ---- properties ----

  lemma MomentOrders()
    ensures TotalPreorder(MomentLe) && TotalPreorder(Later)
  {
    forall a: Appointment, b: Appointment ensures MomentLe(a, b) || MomentLe(b, a) {
      StrLeTotal(Moment(a), Moment(b));
    }
    forall a: Appointment, b: Appointment, c: Appointment | MomentLe(a, b) && MomentLe(b, c) ensures MomentLe(a, c) {
      StrLeTransitive(Moment(a), Moment(b), Moment(c));
    }
    forall a: Appointment, b: Appointment ensures Later(a, b) || Later(b, a) {
      StrLeTotal(Moment(a), Moment(b));
    }
    forall a: Appointment, b: Appointment, c: Appointment | Later(a, b) && Later(b, c) ensures Later(a, c) {
      StrLeTransitive(Moment(c), Moment(b), Moment(a));
    }
  }

  lemma UpcomingMember(appts: seq<Appointment>, now: string, a: Appointment)
    ensures a in Upcoming(appts, now) <==> a in appts && IsUpcoming(a, now)
  {
    var up := Filter(appts, UpcomingFilter(now));
    assert a in Upcoming(appts, now) <==> a in multiset(up);
    if a in appts && IsUpcoming(a, now) {
      var k :| 0 <= k < |appts| && appts[k] == a;
      assert UpcomingFilter(now)(a);
    }
  }

  lemma PastMember(appts: seq<Appointment>, now: string, a: Appointment)
    ensures a in Past(appts, now) <==> a in appts && !IsUpcoming(a, now)
  {
    var past := Filter(appts, PastFilter(now));
    assert a in Past(appts, now) <==> a in multiset(past);
    if a in appts && !IsUpcoming(a, now) {
      var k :| 0 <= k < |appts| && appts[k] == a;
      assert PastFilter(now)(a);
    }
  }

  /** Every appointment is in exactly one of the two lists, as often as it is given. */
  lemma AppointmentsPartition(appts: seq<Appointment>, now: string)
    ensures multiset(Upcoming(appts, now)) + multiset(Past(appts, now)) == multiset(appts)
    ensures forall a :: a in Upcoming(appts, now) <==> a in appts && IsUpcoming(a, now)
    ensures forall a :: a in Past(appts, now) <==> a in appts && !IsUpcoming(a, now)
  {
    assert forall a :: PastFilter(now)(a) <==> !UpcomingFilter(now)(a);
    FilterPartition(appts, UpcomingFilter(now), PastFilter(now));
    forall a ensures a in Upcoming(appts, now) <==> a in appts && IsUpcoming(a, now) {
      UpcomingMember(appts, now, a);
    }
    forall a ensures a in Past(appts, now) <==> a in appts && !IsUpcoming(a, now) {
      PastMember(appts, now, a);
    }
  }

  /** Upcoming appointments run soonest first, past ones latest first. */
  lemma AppointmentsOrdered(appts: seq<Appointment>, now: string)
    ensures SortedBy(Upcoming(appts, now), MomentLe)
    ensures SortedBy(Past(appts, now), Later)
  {
    MomentOrders();
    SortBySorted(Filter(appts, UpcomingFilter(now)), MomentLe);
    SortBySorted(Filter(appts, PastFilter(now)), Later);
  }

  /** The next appointment is the soonest upcoming one; there is none only when nothing is upcoming. */
  lemma NextAppointmentMeaning(appts: seq<Appointment>, now: string)
    ensures NextAppointment(appts, now).None? <==> forall a :: a in appts ==> !IsUpcoming(a, now)
    ensures NextAppointment(appts, now).Some? ==>
      && NextAppointment(appts, now).value in appts && IsUpcoming(NextAppointment(appts, now).value, now)
      && forall a :: a in appts && IsUpcoming(a, now) ==> StrLe(Moment(NextAppointment(appts, now).value), Moment(a))
  {
    AppointmentsPartition(appts, now);
    AppointmentsOrdered(appts, now);
    var up := Upcoming(appts, now);
    if |up| > 0 {
      forall a | a in appts && IsUpcoming(a, now) ensures StrLe(Moment(up[0]), Moment(a)) {
        assert a in up;
        var j :| 0 <= j < |up| && up[j] == a;
        StrLeTotal(Moment(a), Moment(a));
        if j > 0 {
          assert MomentLe(up[0], up[j]);
        }
      }
    } else {
      forall a | a in appts ensures !IsUpcoming(a, now) {
        assert a !in up;
      }
    }
  }

  /** A cancelled appointment is never upcoming: once cancelled it shows among the past ones. */
  lemma CancelledIsPast(appts: seq<Appointment>, a: Appointment, now: string)
    requires Cancelled(a) in appts
    ensures Cancelled(a) in Past(appts, now) && Cancelled(a) !in Upcoming(appts, now)
  {
    AppointmentsPartition(appts, now);
  }

  /** A new appointment left scheduled and set after `now` shows as upcoming once added. */
  lemma AddedAppointmentUpcoming(appts: seq<Appointment>, draft: ApptDraft, nowMs: nat, now: string)
    requires BuildAppointment(draft, None, nowMs).Some?
    requires draft.status != Some(Completada) && draft.status != Some(Cancelada)
    requires !StrLe(draft.date.value + "T" + draft.time.value, now)
    ensures BuildAppointment(draft, None, nowMs).value.AddAppt?
    ensures BuildAppointment(draft, None, nowMs).value.appt in Upcoming(appts + [BuildAppointment(draft, None, nowMs).value.appt], now)
  {
    var a := BuildAppointment(draft, None, nowMs).value.appt;
    AppointmentsPartition(appts + [a], now);
    assert a in appts + [a];
  }

  /** Removing row i takes away exactly one occurrence of that row and nothing else, counted as a multiset. */
  lemma {:induction false} RemoveAtKeepsOthers(meds: seq<MedicationItem>, i: nat)
    requires i < |meds|
    ensures multiset(RemoveAt(meds, i)) + multiset{meds[i]} == multiset(meds)
  {
    assert meds == [meds[0]] + meds[1..];
    if i > 0 {
      RemoveAtKeepsOthers(meds[1..], i - 1);
    }
  }
}
