/**
 * The application's own edits of a bed's lab snapshot (a lab result added or deleted
 * while the patient is in a bed), the snapshot written on admission, and the list
 * state the handlers keep.
 */
module App {
  import opened Basics
  import opened Text
  import opened Seqs
  import opened Records
  import opened LabSync
  import opened DbService

  const DayTitle := "Resultados del Día"
  const AdmissionTitle := "Ingreso (Últimos Labs)"

  // ---- adding a lab result to the bed's snapshot ----

  /** A template literal renders a missing number as "undefined". */
  function ValueText(v: Option<int>): string {
    if v.Some? then IntToString(v.value) else "undefined"
  }

  /** The snapshot metric made from a new lab result. */
  function MetricOfResult(r: LabResult): (m: LabMetric)
    ensures m.name == r.testName && m.kind == r.resultType && m.category == r.category && m.isAbnormal == r.isAbnormal
  {
    LabMetric(
      r.testName,
      if r.resultType == Quantitative then Trim(ValueText(r.value) + " " + r.unit.GetOr("")) else r.textValue.GetOr(""),
      r.resultType, r.category, r.isAbnormal)
  }

  /** The section a new metric goes to: dated today, or titled as the day's results. */
  predicate IsDayTarget(today: string, s: LabSection) {
    s.date == today || s.title == DayTitle
  }

  function DayTarget(today: string): LabSection -> bool {
    (s: LabSection) => IsDayTarget(today, s)
  }

  /** The section prepended when no section is the day's target. */
  function DaySection(today: string, m: LabMetric): LabSection {
    LabSection(DayTitle, today, [m])
  }

  /** `m` appended to the first target section, or a new day section put in front. */
  function MergeMetric(sections: seq<LabSection>, m: LabMetric, today: string): seq<LabSection> {
    var idx := FindIndex(sections, DayTarget(today));
    if idx.Some? then sections[idx.value := sections[idx.value].(metrics := sections[idx.value].metrics + [m])]
    else [DaySection(today, m)] + sections
  }

  /** Every metric of a snapshot, section by section. */
  function AllMetrics(sections: seq<LabSection>): seq<LabMetric> {
    if sections == [] then [] else sections[0].metrics + AllMetrics(sections[1..])
  }

  // ---- deleting a lab result from the bed's snapshot ----

  function NotNamed(name: string): LabMetric -> bool {
    (m: LabMetric) => m.name != name
  }

  /** A section dated `date` loses the metrics named exactly `name`; other sections are kept. */
  function StripSection(s: LabSection, date: string, name: string): LabSection {
    if s.date == date then s.(metrics := Filter(s.metrics, NotNamed(name))) else s
  }

  /** Whether stripping changed the number of metrics of section `s`. */
  predicate Touched(s: LabSection, date: string, name: string) {
    s.date == date && |Filter(s.metrics, NotNamed(name))| != |s.metrics|
  }

  function HasMetrics(): LabSection -> bool {
    (s: LabSection) => |s.metrics| > 0
  }

  /** The sections after the strip, each section stripped in place. */
  function StripAll(sections: seq<LabSection>, date: string, name: string): seq<LabSection> {
    seq(|sections|, k requires 0 <= k < |sections| => StripSection(sections[k], date, name))
  }

  /** The snapshot written back: the stripped sections that still hold a metric, in order. */
  function Stripped(sections: seq<LabSection>, date: string, name: string): seq<LabSection> {
    Filter(StripAll(sections, date, name), HasMetrics())
  }

  /**
   * The snapshot edit on deleting `result`: every section is stripped in place, the flag
   * records whether any count changed, then the empty sections are dropped, which also
   * sets the flag.
   */
  method StripDeletedResult(sections: seq<LabSection>, result: LabResult) returns (finals: seq<LabSection>, modified: bool)
    ensures finals == Stripped(sections, result.date, result.testName)
    ensures modified <==> finals != sections
  {
    var updated := sections;
    modified := false;
    var i := 0;
    while i < |updated|
      invariant |updated| == |sections| && 0 <= i <= |sections|
      invariant forall k :: 0 <= k < i ==> updated[k] == StripSection(sections[k], result.date, result.testName)
      invariant forall k :: i <= k < |sections| ==> updated[k] == sections[k]
      invariant modified <==> exists k :: 0 <= k < i && Touched(sections[k], result.date, result.testName)
    {
      var section := updated[i];
      if section.date == result.date {
        var initialCount := |section.metrics|;
        var kept := Filter(section.metrics, NotNamed(result.testName));
        updated := updated[i := section.(metrics := kept)];
        if |kept| != initialCount {
          modified := true;
        }
      }
      i := i + 1;
    }
    assert updated == StripAll(sections, result.date, result.testName);
    finals := Filter(updated, HasMetrics());
    if |finals| != |updated| {
      modified := true;
    }
    StripChangedIff(sections, result.date, result.testName);
  }

  // ---- the admission snapshot ----

  /** The display of a lab result in the admission snapshot. */
  function AdmissionValue(l: LabResult): (v: string)
    ensures l.value.Some? ==> v == Trim(IntToString(l.value.value) + " " + l.unit.GetOr(""))
    ensures l.value.None? && l.textValue.Some? && Trim(l.textValue.value) != "" ==> v == l.textValue.value
    ensures l.value.None? && (l.textValue.None? || Trim(l.textValue.value) == "") ==> v == "Sin resultado"
    ensures l.value.None? ==> v != ""
  {
    if l.value.Some? then Trim(IntToString(l.value.value) + " " + l.unit.GetOr(""))
    else if l.textValue.Some? && Trim(l.textValue.value) != "" then l.textValue.value
    else "Sin resultado"
  }

  /** An admission metric; it carries no category. */
  function AdmissionMetric(l: LabResult): LabMetric {
    LabMetric(l.testName, AdmissionValue(l), l.resultType, "", l.isAbnormal)
  }

  function OnDate(date: string): LabResult -> bool {
    (l: LabResult) => l.date == date
  }

  /** The labs, newest first, grouped into one section for the date of the first. */
  function AdmissionSections(labs: seq<LabResult>): seq<LabSection> {
    if labs == [] then []
    else
      var recent := Filter(labs, OnDate(labs[0].date));
      [LabSection(AdmissionTitle, labs[0].date, seq(|recent|, k requires 0 <= k < |recent| => AdmissionMetric(recent[k])))]
  }

  /** The admission condition: the last evolution's assessment, else the first chronic condition, else a default. */
  function AdmissionCondition(evolutions: seq<EvolutionNote>, patient: Patient): (c: string)
    ensures c != ""
    ensures evolutions != [] && Truthy(evolutions[0].assessment) ==> c == evolutions[0].assessment.value
    ensures !(evolutions != [] && Truthy(evolutions[0].assessment)) && patient.chronicConditions != [] && patient.chronicConditions[0] != "" ==>
      c == patient.chronicConditions[0]
  {
    if evolutions != [] && Truthy(evolutions[0].assessment) then evolutions[0].assessment.value
    else if patient.chronicConditions != [] && patient.chronicConditions[0] != "" then patient.chronicConditions[0]
    else "Ingreso General"
  }

  /** The admission plan: the last evolution's plan, else the initial assessment. */
  function AdmissionPlan(evolutions: seq<EvolutionNote>): (p: seq<string>)
    ensures |p| == 1 && p[0] != ""
    ensures evolutions != [] && Truthy(evolutions[0].plan) ==> p == [evolutions[0].plan.value]
  {
    if evolutions != [] && Truthy(evolutions[0].plan) then [evolutions[0].plan.value]
    else ["Realizar valoración inicial completa"]
  }

  /** The three summary lines; `age` is the year difference computed from the clock. */
  function AdmissionSummary(patient: Patient, evolutions: seq<EvolutionNote>, age: int): (s: seq<string>)
    ensures |s| == 3 && s[0] == "Paciente: " + patient.name
  {
    var last := if evolutions != [] then Some(evolutions[0]) else None;
    var date := if last.Some? && Truthy(last.value.date) then last.value.date.value else "Sin fecha";
    var subjective := if last.Some? && Truthy(last.value.subjective) then last.value.subjective.value else "Sin datos";
    ["Paciente: " + patient.name, "Edad: " + IntToString(age) + " años", "Última evolución (" + date + "): " + subjective]
  }

  /** The payload of an admission: the form's fields, overridden by the snapshot. */
  function AdmissionPayload(payload: BedPayload, patient: Patient, evolutions: seq<EvolutionNote>, labs: seq<LabResult>,
                            today: string, age: int): (p: BedPayload)
    ensures p.id == payload.id && p.carePlan == payload.carePlan
    ensures p.condition == Some(AdmissionCondition(evolutions, patient)) && p.admissionDate == Some(today)
    ensures p.labSections == Some(AdmissionSections(labs))
  {
    BedPayload(payload.id, Some(AdmissionCondition(evolutions, patient)), Some(today),
      Some(AdmissionSummary(patient, evolutions, age)), Some(AdmissionPlan(evolutions)),
      payload.carePlan, Some(AdmissionSections(labs)))
  }

  // ---- the bed list ----

  /** The bed list with the bed of `b`'s id replaced by `b`. */
  function ReplaceBed(beds: seq<BedData>, b: BedData): seq<BedData> {
    seq(|beds|, k requires 0 <= k < |beds| => if beds[k].id == b.id then b else beds[k])
  }

  /**
   * Replacing a bed keeps the ids in order; `b` is listed afterwards exactly when its id
   * was; a bed of another id is listed exactly when it was before; with unique ids, `b`
   * is listed once.
   */
  lemma ReplaceBedMeaning(beds: seq<BedData>, b: BedData)
    ensures var r := ReplaceBed(beds, b);
      && |r| == |beds|
      && (forall k :: 0 <= k < |beds| ==> r[k].id == beds[k].id)
      && (b in r <==> exists k :: 0 <= k < |beds| && beds[k].id == b.id)
      && (forall c: BedData :: c.id != b.id ==> (c in r <==> c in beds))
      && ((forall i, j :: 0 <= i < j < |beds| ==> beds[i].id != beds[j].id) ==>
            forall i, j :: 0 <= i < |r| && 0 <= j < |r| && r[i] == b && r[j] == b ==> i == j)
  {
    var r := ReplaceBed(beds, b);
    forall c: BedData | c.id != b.id
      ensures c in r <==> c in beds
    {
      if c in r {
        var k :| 0 <= k < |r| && r[k] == c;
      }
      if c in beds {
        var k :| 0 <= k < |beds| && beds[k] == c;
        assert r[k] == c;
      }
    }
    if b in r {
      var k :| 0 <= k < |r| && r[k] == b;
      assert beds[k].id == b.id;
    }
  }

  function HasId(id: int): BedData -> bool {
    (b: BedData) => b.id == id
  }

  /** The bed of the selected patient, when the patient's bed id is truthy and the bed is listed. */
  function AssignedBed(selected: Option<Patient>, beds: seq<BedData>): (r: Option<BedData>)
    ensures r.Some? ==> selected.Some? && selected.value.bedId == Some(r.value.id) && r.value in beds
    ensures r.None? ==>
      (!(selected.Some? && TruthyId(selected.value.bedId)) ||
       forall k :: 0 <= k < |beds| ==> beds[k].id != selected.value.bedId.value)
  {
    if selected.Some? && TruthyId(selected.value.bedId) then Find(beds, HasId(selected.value.bedId.value)) else None
  }

  // ---- properties ----

  /** A quantitative result whose value is not 0 and whose unit has no surrounding blanks survives the re-sync of its metric. */
  lemma MetricRoundTrip(s: LabSection, r: LabResult)
    requires r.resultType == Quantitative && r.value.Some? && r.value.value != 0
    requires Trim(r.unit.GetOr("")) == r.unit.GetOr("")
    ensures var back := SyncedRecord(s, MetricOfResult(r));
      back.value == r.value && back.unit == Some(r.unit.GetOr("")) && back.testName == r.testName && back.date == s.date
  {
    ParseRendered(r.value.value, r.unit.GetOr(""));
  }

  /** A qualitative result's text survives the re-sync of its metric. */
  lemma MetricRoundTripText(s: LabSection, r: LabResult)
    requires r.resultType == Qualitative
    ensures var back := SyncedRecord(s, MetricOfResult(r));
      back.value == None && back.textValue == Some(r.textValue.GetOr("")) && back.testName == r.testName
  {
    ParseQualitative(r.textValue.GetOr(""));
  }

  /** A value of 0 is lost on re-sync. */
  lemma ZeroValueLost(s: LabSection, r: LabResult)
    requires r.resultType == Quantitative && r.value == Some(0) && Trim(r.unit.GetOr("")) == r.unit.GetOr("")
    ensures SyncedRecord(s, MetricOfResult(r)).value == None
  {
    ParseRendered(0, r.unit.GetOr(""));
  }

  /** The metric goes to the end of the first target section; every other section stays as it was. */
  lemma MergeIntoTarget(sections: seq<LabSection>, m: LabMetric, today: string, i: nat)
    requires i < |sections| && IsDayTarget(today, sections[i])
    requires forall k :: 0 <= k < i ==> !IsDayTarget(today, sections[k])
    ensures var r := MergeMetric(sections, m, today);
      && |r| == |sections|
      && r[i].metrics == sections[i].metrics + [m] && r[i].title == sections[i].title && r[i].date == sections[i].date
      && (forall k :: 0 <= k < |sections| && k != i ==> r[k] == sections[k])
      && r == sections[i := sections[i].(metrics := sections[i].metrics + [m])]
  {
    assert DayTarget(today)(sections[i]);
  }

  /** Without a target section, the day section with the one metric is put in front of the others. */
  lemma MergeWithoutTarget(sections: seq<LabSection>, m: LabMetric, today: string)
    requires forall k :: 0 <= k < |sections| ==> !IsDayTarget(today, sections[k])
    ensures MergeMetric(sections, m, today) == [LabSection(DayTitle, today, [m])] + sections
  {
    assert forall k :: 0 <= k < |sections| ==> !DayTarget(today)(sections[k]);
  }

  lemma {:induction false} AllMetricsCons(s: LabSection, sections: seq<LabSection>)
    ensures AllMetrics([s] + sections) == s.metrics + AllMetrics(sections)
  {
    assert ([s] + sections)[1..] == sections;
  }

  lemma {:induction false} AllMetricsAppend(a: seq<LabSection>, b: seq<LabSection>)
    ensures AllMetrics(a + b) == AllMetrics(a) + AllMetrics(b)
  {
    if a != [] {
      assert (a + b)[0] == a[0] && (a + b)[1..] == a[1..] + b;
      AllMetricsAppend(a[1..], b);
      AppendAssoc(a[0].metrics, AllMetrics(a[1..]), AllMetrics(b));
    } else {
      assert a + b == b;
    }
  }

  /** The metrics of a snapshot, split around section `i`. */
  lemma AllMetricsAround(sections: seq<LabSection>, i: nat)
    requires i < |sections|
    ensures AllMetrics(sections) == AllMetrics(sections[..i]) + (sections[i].metrics + AllMetrics(sections[i + 1..]))
  {
    Around(sections, i);
    AllMetricsAppend(sections[..i], [sections[i]] + sections[i + 1..]);
    AllMetricsCons(sections[i], sections[i + 1..]);
  }

  /** Merging adds exactly the one metric to the snapshot and loses none. */
  lemma MergeAddsOneMetric(sections: seq<LabSection>, m: LabMetric, today: string)
    ensures multiset(AllMetrics(MergeMetric(sections, m, today))) == multiset(AllMetrics(sections)) + multiset{m}
  {
    var idx := FindIndex(sections, DayTarget(today));
    var merged := MergeMetric(sections, m, today);
    if idx.Some? {
      var i := idx.value;
      assert merged[..i] == sections[..i] && merged[i + 1..] == sections[i + 1..];
      AllMetricsAround(sections, i);
      AllMetricsAround(merged, i);
      var a, b, c := AllMetrics(sections[..i]), sections[i].metrics, AllMetrics(sections[i + 1..]);
      assert AllMetrics(merged) == a + ((b + [m]) + c);
      assert multiset(a + ((b + [m]) + c)) == multiset(a + (b + c)) + multiset{m};
    } else {
      AllMetricsCons(DaySection(today, m), sections);
    }
  }

  lemma {:induction false} EntriesCons(s: LabSection, sections: seq<LabSection>)
    ensures Entries([s] + sections) == SectionEntries(s, s.metrics) + Entries(sections)
    decreases |sections|
  {
    if sections == [] {
      assert [s] + sections == [s];
      assert [s][..0] == [];
    } else {
      var n := |sections| - 1;
      var all := [s] + sections;
      assert all[..|all| - 1] == [s] + sections[..n];
      assert all[|all| - 1] == sections[n];
      EntriesCons(s, sections[..n]);
      AppendAssoc(SectionEntries(s, s.metrics), Entries(sections[..n]), SectionEntries(sections[n], sections[n].metrics));
    }
  }

  /**
   * When the merge puts a new day section in front, the sync that follows the bed
   * update plans the new metric's record (when its key is not on file) ahead of exactly
   * what it planned before.
   */
  lemma NewDaySectionPlan(existing: set<string>, sections: seq<LabSection>, m: LabMetric, today: string)
    requires forall k :: 0 <= k < |sections| ==> !IsDayTarget(today, sections[k])
    ensures Planned(existing, MergeMetric(sections, m, today))
      == Added(existing, (DaySection(today, m), m)) + Planned(existing, sections)
  {
    var d := DaySection(today, m);
    var es := Entries(sections);
    MergeWithoutTarget(sections, m, today);
    EntriesCons(d, sections);
    assert SectionEntries(d, d.metrics) == [(d, m)];
    assert Entries(MergeMetric(sections, m, today)) == [(d, m)] + es;
    PlanOfAppend(existing, [(d, m)], es);
    PlanStep(existing, [], (d, m));
    assert [] + [(d, m)] == [(d, m)];
    assert PlanOf(existing, [(d, m)]) == Added(existing, (d, m));
  }

  /**
   * The merge matches sections on today's date, not on the result's: when no section
   * is the day's target and no record of the test is on file for today, the re-sync
   * inserts the result again, dated today, ahead of what it inserted before.
   */
  lemma ReaddedUnderToday(existing: set<string>, sections: seq<LabSection>, r: LabResult, today: string)
    requires forall k :: 0 <= k < |sections| ==> !IsDayTarget(today, sections[k])
    requires Key(today, r.testName) !in existing
    ensures var back := SyncedRecord(DaySection(today, MetricOfResult(r)), MetricOfResult(r));
      && Planned(existing, MergeMetric(sections, MetricOfResult(r), today)) == [back] + Planned(existing, sections)
      && back.date == today && back.testName == r.testName
  {
    NewDaySectionPlan(existing, sections, MetricOfResult(r), today);
  }

  /**
   * When the result's key is already on file under the target section's date (the record
   * was created just before), the re-sync after a merge into that section inserts
   * nothing it would not have inserted before.
   */
  lemma MergeOnFileAddsNothing(existing: set<string>, sections: seq<LabSection>, m: LabMetric, today: string, i: nat)
    requires i < |sections| && IsDayTarget(today, sections[i])
    requires forall k :: 0 <= k < i ==> !IsDayTarget(today, sections[k])
    requires Key(sections[i].date, m.name) in existing
    ensures Planned(existing, MergeMetric(sections, m, today)) == Planned(existing, sections)
  {
    MergeIntoTarget(sections, m, today, i);
    var merged := sections[i := sections[i].(metrics := sections[i].metrics + [m])];
    assert merged[..i] == sections[..i] && merged[i + 1..] == sections[i + 1..];
    PlannedAround(existing, sections, i);
    PlannedAround(existing, merged, i);
    AppendedOnFile(existing, sections[i], m);
  }

  /** A metric appended to a section under a key on file adds no record to that section's plan. */
  lemma AppendedOnFile(existing: set<string>, s: LabSection, m: LabMetric)
    requires Key(s.date, m.name) in existing
    ensures SectionPlan(existing, s.(metrics := s.metrics + [m])) == SectionPlan(existing, s)
  {
    var t := s.(metrics := s.metrics + [m]);
    assert t.metrics[..|t.metrics| - 1] == s.metrics && t.metrics[|t.metrics| - 1] == m;
    assert SectionEntries(t, t.metrics) == SectionEntries(t, s.metrics) + [(t, m)];
    PlanStep(existing, SectionEntries(t, s.metrics), (t, m));
    SectionPlanHeading(existing, t, s, s.metrics);
  }

  /** With the key on file and no target section, the new day section adds nothing to the re-sync either. */
  lemma NewDayOnFileAddsNothing(existing: set<string>, sections: seq<LabSection>, m: LabMetric, today: string)
    requires forall k :: 0 <= k < |sections| ==> !IsDayTarget(today, sections[k])
    requires Key(today, m.name) in existing
    ensures Planned(existing, MergeMetric(sections, m, today)) == Planned(existing, sections)
  {
    NewDaySectionPlan(existing, sections, m, today);
  }

  /**
   * A section titled as the day's results but dated another day still takes the new
   * metric, and the re-sync then files the result under that older date.
   */
  lemma StaleDaySectionMisdates(existing: set<string>, sections: seq<LabSection>, m: LabMetric, today: string, i: nat)
    requires i < |sections| && IsDayTarget(today, sections[i]) && sections[i].date != today
    requires forall k :: 0 <= k < i ==> !IsDayTarget(today, sections[k])
    requires Key(sections[i].date, m.name) !in existing
    ensures var merged := MergeMetric(sections, m, today);
      var back := SyncedRecord(merged[i], m);
      back in Planned(existing, merged) && back.date == sections[i].date && back.date != today
  {
    MergeIntoTarget(sections, m, today, i);
    var merged := MergeMetric(sections, m, today);
    var j := |merged[i].metrics| - 1;
    assert merged[i].metrics[j] == m;
    PlannedCovers(existing, merged, i, j);
  }

  /** The re-sync of a stripped snapshot never files the deleted test again on the deleted record's date. */
  lemma StrippedNotResynced(existing: set<string>, sections: seq<LabSection>, date: string, name: string, k: nat)
    requires k < |Planned(existing, Stripped(sections, date, name))|
    ensures var back := Planned(existing, Stripped(sections, date, name))[k];
      !(back.date == date && back.testName == name)
  {
    var finals := Stripped(sections, date, name);
    PlannedIsFiltered(existing, finals);
    var f := Filter(Entries(finals), NewIn(existing));
    assert f[k] in Entries(finals);
    EntriesFrom(finals, f[k]);
    StrippedMembers(sections, date, name);
  }

  /** Stripping reports a change exactly when the snapshot written back differs from the one read. */
  lemma StripChangedIff(sections: seq<LabSection>, date: string, name: string)
    ensures ((exists k :: 0 <= k < |sections| && Touched(sections[k], date, name)) || |Stripped(sections, date, name)| != |sections|)
      <==> Stripped(sections, date, name) != sections
  {
    var all := StripAll(sections, date, name);
    var finals := Stripped(sections, date, name);
    if finals == sections {
      FilterSameLength(all, HasMetrics());
      forall k | 0 <= k < |sections| ensures !Touched(sections[k], date, name) {
        assert all[k] == sections[k];
      }
    }
    if !(exists k :: 0 <= k < |sections| && Touched(sections[k], date, name)) && |finals| == |sections| {
      FilterSameLength(all, HasMetrics());
      forall k | 0 <= k < |sections| ensures all[k] == sections[k] {
        if sections[k].date == date {
          FilterSameLength(sections[k].metrics, NotNamed(name));
        }
      }
    }
  }

  /**
   * The written snapshot is the non-empty stripped sections and nothing else, in their
   * order: section j is the stripped section at position idx[j] of `sections`, the
   * positions ascend, and every position whose stripped section still holds a metric is
   * in idx.
   */
  ghost predicate StripOrder(sections: seq<LabSection>, date: string, name: string, finals: seq<LabSection>) {
    exists idx: seq<nat> ::
      && |idx| == |finals|
      && AscendingWithin(idx, 0, |sections|)
      && (forall j :: 0 <= j < |idx| && idx[j] < |sections| ==> finals[j] == StripSection(sections[idx[j]], date, name))
      && (forall k :: 0 <= k < |sections| && StripSection(sections[k], date, name).metrics != [] ==> k in idx)
  }

  lemma StrippedPositions(sections: seq<LabSection>, date: string, name: string)
    ensures StripOrder(sections, date, name, Stripped(sections, date, name))
  {
    var all := StripAll(sections, date, name);
    var finals := Stripped(sections, date, name);
    var idx := KeptPositions(all, HasMetrics(), 0);
    FilterPositions(all, HasMetrics(), 0);
    assert all[0..] == all;
    assert |all| == |sections| && forall k :: 0 <= k < |sections| ==> all[k] == StripSection(sections[k], date, name);
    forall k | 0 <= k < |sections| && StripSection(sections[k], date, name).metrics != [] ensures k in idx {
      assert HasMetrics()(all[k]);
    }
    assert AscendingWithin(idx, 0, |sections|);
  }

  /** What the strip removes, what it keeps, and that no written section is empty. */
  lemma StrippedMembers(sections: seq<LabSection>, date: string, name: string)
    ensures var finals := Stripped(sections, date, name);
      && (forall i, j :: 0 <= i < |finals| && 0 <= j < |finals[i].metrics| && finals[i].date == date ==> finals[i].metrics[j].name != name)
      && (forall i :: 0 <= i < |finals| ==> finals[i].metrics != [])
      && (forall i, j ::
            (0 <= i < |sections| && 0 <= j < |sections[i].metrics| &&
             (sections[i].date != date || sections[i].metrics[j].name != name)) ==>
            StripSection(sections[i], date, name) in finals && sections[i].metrics[j] in StripSection(sections[i], date, name).metrics)
  {
    var all := StripAll(sections, date, name);
    var finals := Stripped(sections, date, name);
    assert |all| == |sections| && forall k :: 0 <= k < |sections| ==> all[k] == StripSection(sections[k], date, name);
    forall i, j | 0 <= i < |finals| && 0 <= j < |finals[i].metrics| && finals[i].date == date
      ensures finals[i].metrics[j].name != name
    {
      var k :| 0 <= k < |all| && all[k] == finals[i];
      assert all[k] == StripSection(sections[k], date, name);
    }
    forall i, j | 0 <= i < |sections| && 0 <= j < |sections[i].metrics| && (sections[i].date != date || sections[i].metrics[j].name != name)
      ensures StripSection(sections[i], date, name) in finals && sections[i].metrics[j] in StripSection(sections[i], date, name).metrics
    {
      assert all[i] == StripSection(sections[i], date, name);
      if sections[i].date == date {
        assert NotNamed(name)(sections[i].metrics[j]);
      }
      assert sections[i].metrics[j] in all[i].metrics;
      assert HasMetrics()(all[i]) && all[i] in all;
      assert all[i] in finals;
    }
  }

  /**
   * After the strip, no section dated `date` holds a metric named `name`, every other
   * metric of a kept section is still there, no section is empty, and the written
   * sections are exactly the non-empty stripped ones in their order (`StripOrder`).
   */
  lemma StrippedMeaning(sections: seq<LabSection>, date: string, name: string)
    ensures var finals := Stripped(sections, date, name);
      && (forall i, j :: 0 <= i < |finals| && 0 <= j < |finals[i].metrics| && finals[i].date == date ==> finals[i].metrics[j].name != name)
      && (forall i :: 0 <= i < |finals| ==> finals[i].metrics != [])
      && (forall i, j ::
            (0 <= i < |sections| && 0 <= j < |sections[i].metrics| &&
             (sections[i].date != date || sections[i].metrics[j].name != name)) ==>
            StripSection(sections[i], date, name) in finals && sections[i].metrics[j] in StripSection(sections[i], date, name).metrics)
    ensures StripOrder(sections, date, name, Stripped(sections, date, name))
  {
    StrippedMembers(sections, date, name);
    StrippedPositions(sections, date, name);
  }

  /**
   * The metrics are one for each lab dated like the first, in the labs' order: metric j
   * comes from the lab at position idx[j], the positions ascend, and every lab of that
   * date has its position in idx.
   */
  ghost predicate AdmissionOrder(labs: seq<LabResult>, metrics: seq<LabMetric>)
    requires labs != []
  {
    exists idx: seq<nat> ::
      && |idx| == |metrics|
      && AscendingWithin(idx, 0, |labs|)
      && (forall j :: 0 <= j < |idx| && idx[j] < |labs| ==> labs[idx[j]].date == labs[0].date && metrics[j] == AdmissionMetric(labs[idx[j]]))
      && (forall k :: 0 <= k < |labs| && labs[k].date == labs[0].date ==> k in idx)
  }

  lemma AdmissionPositions(labs: seq<LabResult>)
    requires labs != []
    ensures AdmissionOrder(labs, AdmissionSections(labs)[0].metrics)
  {
    var p := OnDate(labs[0].date);
    var idx := KeptPositions(labs, p, 0);
    KeptPositionsAscend(labs, p, 0);
    AdmissionPicks(labs, idx);
  }

  /** Positions that pick the labs of the first lab's date pick the admission metrics. */
  lemma AdmissionPicks(labs: seq<LabResult>, idx: seq<nat>)
    requires labs != [] && idx == KeptPositions(labs, OnDate(labs[0].date), 0)
    ensures var metrics := AdmissionSections(labs)[0].metrics;
      && |idx| == |metrics|
      && (forall j :: 0 <= j < |idx| && idx[j] < |labs| ==> labs[idx[j]].date == labs[0].date && metrics[j] == AdmissionMetric(labs[idx[j]]))
      && (forall k :: 0 <= k < |labs| && labs[k].date == labs[0].date ==> k in idx)
  {
    var p := OnDate(labs[0].date);
    var recent := Filter(labs, p);
    var metrics := AdmissionSections(labs)[0].metrics;
    KeptAtPositions(labs, p, 0);
    assert labs[0..] == labs;
    KeptIsFilter(labs, p);
    forall k | 0 <= k < |labs| && labs[k].date == labs[0].date ensures k in idx {
      assert p(labs[k]);
    }
    forall j | 0 <= j < |idx| && idx[j] < |labs| ensures labs[idx[j]].date == labs[0].date && metrics[j] == AdmissionMetric(labs[idx[j]]) {
      assert metrics[j] == AdmissionMetric(recent[j]);
      assert p(recent[j]);
    }
  }

  /** The count of the admission metrics, and where each comes from. */
  lemma AdmissionMembers(labs: seq<LabResult>)
    requires labs != []
    ensures var s := AdmissionSections(labs);
      && |s| == 1 && s[0].title == AdmissionTitle && s[0].date == labs[0].date
      && |s[0].metrics| == |Filter(labs, OnDate(labs[0].date))|
      && (forall j :: 0 <= j < |s[0].metrics| ==> exists k :: 0 <= k < |labs| && labs[k].date == labs[0].date && s[0].metrics[j] == AdmissionMetric(labs[k]))
      && (forall k :: 0 <= k < |labs| && labs[k].date == labs[0].date ==> AdmissionMetric(labs[k]) in s[0].metrics)
  {
    var recent := Filter(labs, OnDate(labs[0].date));
    var s := AdmissionSections(labs);
    forall j | 0 <= j < |s[0].metrics|
      ensures exists k :: 0 <= k < |labs| && labs[k].date == labs[0].date && s[0].metrics[j] == AdmissionMetric(labs[k])
    {
      var k :| 0 <= k < |labs| && labs[k] == recent[j];
    }
    forall k | 0 <= k < |labs| && labs[k].date == labs[0].date ensures AdmissionMetric(labs[k]) in s[0].metrics {
      assert OnDate(labs[0].date)(labs[k]);
      var j :| 0 <= j < |recent| && recent[j] == labs[k];
      assert s[0].metrics[j] == AdmissionMetric(labs[k]);
    }
  }

  /**
   * The admission snapshot is empty without labs, and otherwise one section holding one
   * metric for each lab of the newest date, in the labs' order (`AdmissionOrder`).
   */
  lemma AdmissionSectionsMeaning(labs: seq<LabResult>)
    ensures labs == [] ==> AdmissionSections(labs) == []
    ensures labs != [] ==>
      var s := AdmissionSections(labs);
      && |s| == 1 && s[0].title == AdmissionTitle && s[0].date == labs[0].date
      && |s[0].metrics| == |Filter(labs, OnDate(labs[0].date))|
      && (forall j :: 0 <= j < |s[0].metrics| ==> exists k :: 0 <= k < |labs| && labs[k].date == labs[0].date && s[0].metrics[j] == AdmissionMetric(labs[k]))
      && (forall k :: 0 <= k < |labs| && labs[k].date == labs[0].date ==> AdmissionMetric(labs[k]) in s[0].metrics)
    ensures labs != [] ==> AdmissionOrder(labs, AdmissionSections(labs)[0].metrics)
  {
    if labs != [] {
      AdmissionMembers(labs);
      AdmissionPositions(labs);
    }
  }

  /** When every lab of the patient is on file, syncing the admission snapshot inserts nothing. */
  lemma AdmissionResyncsNothing(existing: set<string>, labs: seq<LabResult>)
    requires forall k :: 0 <= k < |labs| ==> Key(labs[k].date, labs[k].testName) in existing
    ensures Planned(existing, AdmissionSections(labs)) == []
  {
    var sections := AdmissionSections(labs);
    if labs != [] {
      AdmissionMembers(labs);
    }
    forall i, j | 0 <= i < |sections| && 0 <= j < |sections[i].metrics|
      ensures Key(sections[i].date, sections[i].metrics[j].name) in existing
    {
      var k :| 0 <= k < |labs| && labs[k].date == labs[0].date && sections[0].metrics[j] == AdmissionMetric(labs[k]);
      assert i == 0;
      assert AdmissionMetric(labs[k]).name == labs[k].testName;
    }
    PlannedNothingNew(existing, sections);
  }
}
