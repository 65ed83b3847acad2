/**
 * The patient list screen: the search over patients, the beds open for admission
 * grouped by pavilion, and the admission dialog that picks a bed and a care plan.
 */
module PatientList {
  import opened Basics
  import opened Text
  import opened Seqs
  import opened Records

  // ---- search ----

  /** The search matches the lower-cased name or id. */
  predicate Matches(p: Patient, term: string) {
    Contains(Lower(p.name), Lower(term)) || Contains(Lower(p.id), Lower(term))
  }

  function MatchesTerm(term: string): Patient -> bool {
    (p: Patient) => Matches(p, term)
  }

  /** The patients the search keeps, in list order. */
  function FilteredPatients(patients: seq<Patient>, term: string): (r: seq<Patient>)
    ensures forall k :: 0 <= k < |r| ==> r[k] in patients && Matches(r[k], term)
    ensures forall k :: 0 <= k < |patients| && Matches(patients[k], term) ==> patients[k] in r
  {
    Filter(patients, MatchesTerm(term))
  }

  /** An empty search keeps every patient, in order. */
  lemma EmptySearchKeepsAll(patients: seq<Patient>)
    ensures FilteredPatients(patients, "") == patients
  {
    forall p | p in patients ensures MatchesTerm("")(p) {
      assert [] <= Lower(p.name);
    }
    FilterAll(patients, MatchesTerm(""));
  }

  // ---- the beds open for admission ----

  predicate IsAvailable(b: BedData) {
    b.status == Available
  }

  function AvailableFilter(): BedData -> bool {
    (b: BedData) => IsAvailable(b)
  }

  function AvailableBeds(beds: seq<BedData>): (r: seq<BedData>)
    ensures forall k :: 0 <= k < |r| ==> r[k] in beds && r[k].status == Available
    ensures forall k :: 0 <= k < |beds| && beds[k].status == Available ==> beds[k] in r
  {
    Filter(beds, AvailableFilter())
  }

  /** A bed's pavilion, with the empty label shown as "General". */
  function PavilionOf(b: BedData): string {
    OrDefault(b.pabellon, "General")
  }

  function Pavilions(beds: seq<BedData>): seq<string> {
    seq(|beds|, k requires 0 <= k < |beds| => PavilionOf(beds[k]))
  }

  /** The pavilions with an available bed: a set of labels, sorted by the default string order. */
  function AvailablePavilions(beds: seq<BedData>): seq<string> {
    SortBy(Distinct(Pavilions(AvailableBeds(beds))), StrLe)
  }

  predicate BedIdLe(a: BedData, b: BedData) {
    a.id <= b.id
  }

  function InPavilion(pavilion: string): BedData -> bool {
    (b: BedData) => PavilionOf(b) == pavilion
  }

  /** The available beds of the chosen pavilion by ascending id; none while no pavilion is chosen. */
  function AvailableBedsInPavilion(beds: seq<BedData>, pavilion: string): seq<BedData> {
    if pavilion == "" then [] else SortBy(Filter(AvailableBeds(beds), InPavilion(pavilion)), BedIdLe)
  }

  /** The assign action is offered only to a patient without a (truthy) bed id. */
  predicate AssignOffered(p: Patient) {
    !TruthyId(p.bedId)
  }

  // ---- properties ----

  /** The pavilion list is sorted and has no repeats. */
  lemma AvailablePavilionsSorted(beds: seq<BedData>)
    ensures SortedBy(AvailablePavilions(beds), StrLe)
    ensures NoDuplicates(AvailablePavilions(beds))
  {
    var d := Distinct(Pavilions(AvailableBeds(beds)));
    StrLeIsTotalPreorder();
    SortBySorted(d, StrLe);
    PermutationNoDuplicates(d, AvailablePavilions(beds));
  }

  /** Every listed pavilion has an available bed. */
  lemma AvailablePavilionsMember(beds: seq<BedData>, x: string)
    requires x in AvailablePavilions(beds)
    ensures exists k :: 0 <= k < |beds| && beds[k].status == Available && PavilionOf(beds[k]) == x
  {
    var avail := AvailableBeds(beds);
    var names := Pavilions(avail);
    assert x in multiset(Distinct(names));
    var i :| 0 <= i < |names| && names[i] == x;
    var k :| 0 <= k < |beds| && beds[k] == avail[i];
  }

  /** The pavilion of every available bed is listed. */
  lemma AvailablePavilionsSource(beds: seq<BedData>, k: nat)
    requires k < |beds| && beds[k].status == Available
    ensures PavilionOf(beds[k]) in AvailablePavilions(beds)
  {
    var avail := AvailableBeds(beds);
    var names := Pavilions(avail);
    var i :| 0 <= i < |avail| && avail[i] == beds[k];
    assert names[i] == PavilionOf(beds[k]);
    assert PavilionOf(beds[k]) in multiset(AvailablePavilions(beds));
  }

  /** With a pavilion chosen, the list holds exactly its available beds, by ascending id. */
  lemma BedsInPavilionMeaning(beds: seq<BedData>, pavilion: string)
    ensures pavilion == "" ==> AvailableBedsInPavilion(beds, pavilion) == []
    ensures SortedBy(AvailableBedsInPavilion(beds, pavilion), BedIdLe)
    ensures pavilion != "" ==> forall b :: b in AvailableBedsInPavilion(beds, pavilion) <==>
      b in beds && b.status == Available && PavilionOf(b) == pavilion
  {
    if pavilion != "" {
      var inPav := Filter(AvailableBeds(beds), InPavilion(pavilion));
      SortBySorted(inPav, BedIdLe);
      forall b ensures b in AvailableBedsInPavilion(beds, pavilion) <==> b in beds && b.status == Available && PavilionOf(b) == pavilion {
        assert b in AvailableBedsInPavilion(beds, pavilion) <==> b in multiset(inPav);
        if b in beds && b.status == Available && PavilionOf(b) == pavilion {
          var k :| 0 <= k < |beds| && beds[k] == b;
          var i :| 0 <= i < |AvailableBeds(beds)| && AvailableBeds(beds)[i] == b;
          assert InPavilion(pavilion)(b);
        }
      }
    }
  }

  // ---- the admission dialog ----

  /** The payload the dialog hands to the admission: the bed id and the care plan, nothing else. */
  function AssignmentPayload(bedId: int, plan: CarePlan): BedPayload {
    BedPayload(bedId, None, None, None, None, Some(plan), None)
  }

  class AssignmentDialog {
    var assigningPatient: Option<Patient>
    var selectedBedId: Option<int>
    var selectedPavilion: string
    var carePlanForm: CarePlan

    constructor ()
      ensures assigningPatient == None && selectedBedId == None && selectedPavilion == "" && carePlanForm == BlankCarePlan
    {
      assigningPatient := None;
      selectedBedId := None;
      selectedPavilion := "";
      carePlanForm := BlankCarePlan;
    }

    /** The assign button of a row; it is shown only when the patient has no bed. */
    method Open(p: Patient)
      modifies this
      ensures AssignOffered(p) ==> assigningPatient == Some(p)
      ensures !AssignOffered(p) ==> assigningPatient == old(assigningPatient)
      ensures selectedBedId == old(selectedBedId) && selectedPavilion == old(selectedPavilion) && carePlanForm == old(carePlanForm)
    {
      if AssignOffered(p) {
        assigningPatient := Some(p);
      }
    }

    /** Choosing a pavilion clears the chosen bed. */
    method ChoosePavilion(pavilion: string)
      modifies this
      ensures selectedPavilion == pavilion && selectedBedId == None
      ensures assigningPatient == old(assigningPatient) && carePlanForm == old(carePlanForm)
    {
      selectedPavilion := pavilion;
      selectedBedId := None;
    }

    method ChooseBed(id: int)
      modifies this
      ensures selectedBedId == Some(id)
      ensures assigningPatient == old(assigningPatient) && selectedPavilion == old(selectedPavilion) && carePlanForm == old(carePlanForm)
    {
      selectedBedId := Some(id);
    }

    /**
     * `finalizeAssignment`: with a patient and a truthy bed id chosen, the admission is
     * requested with the payload and the dialog is reset; otherwise nothing happens.
     */
    method Finalize() returns (request: Option<(Patient, BedPayload)>)
      modifies this
      ensures old(assigningPatient).Some? && TruthyId(old(selectedBedId)) ==>
        && request == Some((old(assigningPatient).value, AssignmentPayload(old(selectedBedId).value, old(carePlanForm))))
        && assigningPatient == None && selectedBedId == None && selectedPavilion == "" && carePlanForm == BlankCarePlan
      ensures !(old(assigningPatient).Some? && TruthyId(old(selectedBedId))) ==>
        && request == None
        && assigningPatient == old(assigningPatient) && selectedBedId == old(selectedBedId)
        && selectedPavilion == old(selectedPavilion) && carePlanForm == old(carePlanForm)
    {
      request := None;
      if assigningPatient.Some? && TruthyId(selectedBedId) {
        request := Some((assigningPatient.value, AssignmentPayload(selectedBedId.value, carePlanForm)));
        assigningPatient := None;
        selectedBedId := None;
        selectedPavilion := "";
        carePlanForm := BlankCarePlan;
      }
    }

    /** `cancelAssignment`: the selection is cleared; the care plan form keeps what was typed. */
    method Cancel()
      modifies this
      ensures assigningPatient == None && selectedBedId == None && selectedPavilion == ""
      ensures carePlanForm == old(carePlanForm)
    {
      assigningPatient := None;
      selectedBedId := None;
      selectedPavilion := "";
    }
  }
}
