/**
 * The bed snapshot to permanent record synchroniser: which metrics of a bed's lab
 * sections become new lab results, and what each new record holds.
 *
 * A metric is identified by the key "{section date}|{trimmed, lower-cased name}". The
 * keys already on file are read once, before the walk over the sections, so two equal
 * metrics in one call are both inserted.
 */
module LabSync {
  import opened Basics
  import opened Text
  import opened Seqs
  import opened Records

  /** The de-duplication key of a test name on a date. */
  function Key(date: string, name: string): string {
    date + "|" + Lower(Trim(name))
  }

  /** The keys of the lab rows on file for `patientId`. */
  function ExistingKeys(labs: seq<LabRow>, patientId: string): set<string> {
    if labs == [] then {}
    else
      var row := labs[|labs| - 1];
      ExistingKeys(labs[..|labs| - 1], patientId) + (if row.patientId == patientId then {Key(row.date, row.testName)} else {})
  }

  /** What the display string of a metric splits into: a number and its unit, or a text value. */
  datatype ParsedValue = ParsedValue(number: Option<int>, unit: string, text: string)

  /**
   * A quantitative, non-empty display is trimmed and split on single spaces; when its
   * first piece is a number, the number is the value and the other pieces, joined by
   * single spaces, the unit. Anything else is kept whole, untrimmed, as text.
   */
  function ParseDisplay(kind: ResultType, display: string): (p: ParsedValue)
    ensures p.number.Some? ==> p.text == "" && kind == Quantitative
    ensures p.number.None? ==> p.unit == "" && p.text == display
  {
    if kind == Quantitative && display != "" then
      var parts := Split(Trim(display));
      var num := ParseNumber(parts[0]);
      if num.Some? then ParsedValue(num, Join(parts[1..]), "") else ParsedValue(None, "", display)
    else ParsedValue(None, "", display)
  }

  /**
   * The record inserted for metric `m` of section `s`. A parsed value of 0 is dropped,
   * because the record takes `parsedValue || undefined`.
   */
  function SyncedRecord(s: LabSection, m: LabMetric): (r: LabResult)
    ensures r.date == s.date && r.testName == m.name && r.resultType == m.kind
    ensures m.category != "" ==> r.category == m.category
    ensures m.category == "" && s.title != "" ==> r.category == s.title
    ensures m.category == "" && s.title == "" ==> r.category == "General"
    ensures r.isAbnormal == Some(m.isAbnormal == Some(true))
    ensures r.value.Some? ==> r.value.value != 0
    ensures r.fileName.None? && r.fileUrl.None?
  {
    var p := ParseDisplay(m.kind, m.value);
    LabResult(
      "", s.date, m.name,
      OrDefault(OrDefault(m.category, s.title), "General"),
      m.kind,
      if p.number.Some? && p.number.value != 0 then p.number else None,
      Some(p.text), Some(p.unit),
      Some(m.isAbnormal == Some(true)),
      None, None)
  }

  /** The key of a record. */
  function RecordKey(r: LabResult): string {
    Key(r.date, r.testName)
  }

  /** A metric together with the section it belongs to. */
  type Entry = (LabSection, LabMetric)

  /** The entry's key is not among `existing`. */
  predicate IsNew(existing: set<string>, e: Entry) {
    Key(e.0.date, e.1.name) !in existing
  }

  function NewIn(existing: set<string>): Entry -> bool {
    e => IsNew(existing, e)
  }

  /** The metrics `ms` of section `s` as entries, in order. */
  function SectionEntries(s: LabSection, ms: seq<LabMetric>): (r: seq<Entry>)
    ensures |r| == |ms|
    ensures forall k :: 0 <= k < |ms| ==> r[k] == (s, ms[k])
  {
    if ms == [] then [] else SectionEntries(s, ms[..|ms| - 1]) + [(s, ms[|ms| - 1])]
  }

  /** Every metric of every section as an entry, in the order the nested loops visit them. */
  function Entries(sections: seq<LabSection>): seq<Entry> {
    if sections == [] then []
    else
      var s := sections[|sections| - 1];
      Entries(sections[..|sections| - 1]) + SectionEntries(s, s.metrics)
  }

  /** The records built for `entries`, one each, in order. */
  function RecordsOf(entries: seq<Entry>): (r: seq<LabResult>)
    ensures |r| == |entries|
    ensures forall k :: 0 <= k < |entries| ==> r[k] == SyncedRecord(entries[k].0, entries[k].1)
  {
    if entries == [] then [] else RecordsOf(entries[..|entries| - 1]) + [SyncedRecord(entries[|entries| - 1].0, entries[|entries| - 1].1)]
  }

  /** The record one visited entry adds: its own when its key is new, none otherwise. */
  function Added(existing: set<string>, e: Entry): seq<LabResult> {
    if IsNew(existing, e) then [SyncedRecord(e.0, e.1)] else []
  }

  /** The records inserted while visiting `visited`: one per entry whose key was absent, in order. */
  function PlanOf(existing: set<string>, visited: seq<Entry>): (r: seq<LabResult>)
    ensures |r| <= |visited|
  {
    if visited == [] then []
    else
      var e := visited[|visited| - 1];
      PlanOf(existing, visited[..|visited| - 1]) + Added(existing, e)
  }

  /** The records one call inserts for `sections`. */
  function Planned(existing: set<string>, sections: seq<LabSection>): seq<LabResult> {
    PlanOf(existing, Entries(sections))
  }

  // ---- list lemmas behind the properties ----

  lemma RecordsOfAppend(a: seq<Entry>, b: seq<Entry>)
    ensures RecordsOf(a + b) == RecordsOf(a) + RecordsOf(b)
  {
    var l, r := RecordsOf(a + b), RecordsOf(a) + RecordsOf(b);
    assert |l| == |r|;
    forall k | 0 <= k < |l| ensures l[k] == r[k] {
      if k < |a| {
        assert (a + b)[k] == a[k];
      } else {
        assert (a + b)[k] == b[k - |a|];
      }
    }
  }

  /** One more visited entry adds its record exactly when its key is new. */
  lemma PlanStep(existing: set<string>, visited: seq<Entry>, e: Entry)
    ensures PlanOf(existing, visited + [e]) == PlanOf(existing, visited) + Added(existing, e)
  {
    assert (visited + [e])[..|visited|] == visited;
  }

  /** The records of a visited prefix are a prefix of the records of the whole walk. */
  lemma {:induction false} PlanPrefix(existing: set<string>, visited: seq<Entry>, all: seq<Entry>)
    requires visited <= all
    ensures PlanOf(existing, visited) <= PlanOf(existing, all)
    decreases |all|
  {
    if |visited| < |all| {
      var n := |all| - 1;
      var front := all[..n];
      PrefixOfFront(visited, all);
      PlanPrefix(existing, visited, front);
      SplitLast(all);
      PlanStep(existing, front, all[n]);
      PrefixExtended(PlanOf(existing, visited), PlanOf(existing, front), Added(existing, all[n]));
    } else {
      assert visited == all;
    }
  }

  /** The reference definition: filter the entries whose key is new, then build one record each. */
  lemma {:induction false} PlanOfIsFiltered(existing: set<string>, visited: seq<Entry>)
    ensures PlanOf(existing, visited) == RecordsOf(Filter(visited, NewIn(existing)))
  {
    if visited != [] {
      var n := |visited| - 1;
      var init := visited[..n];
      var e := visited[n];
      PlanOfIsFiltered(existing, init);
      SplitLast(visited);
      FilterAppend(init, [e], NewIn(existing));
      var fi := Filter(init, NewIn(existing));
      var fe := Filter([e], NewIn(existing));
      assert fe == if IsNew(existing, e) then [e] else [];
      RecordsOfAppend(fi, fe);
      assert RecordsOf(fe) == Added(existing, e);
    }
  }

  /**
   * The records of one call are exactly those of the entries whose key was absent
   * before the call, in visiting order and with repetitions.
   */
  lemma PlannedIsFiltered(existing: set<string>, sections: seq<LabSection>)
    ensures Planned(existing, sections) == RecordsOf(Filter(Entries(sections), NewIn(existing)))
  {
    PlanOfIsFiltered(existing, Entries(sections));
  }

  lemma {:induction false} SectionEntriesPrefix(s: LabSection, ms: seq<LabMetric>, j: nat)
    requires j <= |ms|
    ensures SectionEntries(s, ms[..j]) <= SectionEntries(s, ms)
  {
  }

  lemma {:induction false} EntriesPrefix(sections: seq<LabSection>, i: nat)
    requires i <= |sections|
    ensures Entries(sections[..i]) <= Entries(sections)
  {
    if i < |sections| {
      var n := |sections| - 1;
      assert sections[..n][..i] == sections[..i];
      EntriesPrefix(sections[..n], i);
    } else {
      assert sections[..i] == sections;
    }
  }

  /** The records one section contributes. */
  function SectionPlan(existing: set<string>, s: LabSection): seq<LabResult> {
    PlanOf(existing, SectionEntries(s, s.metrics))
  }

  /** Planning is compositional: the records of `a + b` are those of `a`, then those of `b`. */
  lemma {:induction false} PlanOfAppend(existing: set<string>, a: seq<Entry>, b: seq<Entry>)
    ensures PlanOf(existing, a + b) == PlanOf(existing, a) + PlanOf(existing, b)
    decreases |b|
  {
    if b == [] {
      assert a + b == a;
    } else {
      var n := |b| - 1;
      PlanOfAppend(existing, a, b[..n]);
      SplitLast(b);
      AppendSplitLast(a, b);
      PlanStep(existing, a + b[..n], b[n]);
      PlanStep(existing, b[..n], b[n]);
      AppendAssoc(PlanOf(existing, a), PlanOf(existing, b[..n]), Added(existing, b[n]));
    }
  }

  /** The outer loop: one more section adds that section's records. */
  lemma PlannedStep(existing: set<string>, sections: seq<LabSection>, i: nat)
    requires i < |sections|
    ensures PlanOf(existing, Entries(sections[..i + 1])) == PlanOf(existing, Entries(sections[..i])) + SectionPlan(existing, sections[i])
  {
    TakeTake(sections, i);
    assert Entries(sections[..i + 1]) == Entries(sections[..i]) + SectionEntries(sections[i], sections[i].metrics);
    PlanOfAppend(existing, Entries(sections[..i]), SectionEntries(sections[i], sections[i].metrics));
  }

  /** The inner loop: one more metric adds its record exactly when its key is new. */
  lemma SectionPlanStep(existing: set<string>, s: LabSection, j: nat)
    requires j < |s.metrics|
    ensures PlanOf(existing, SectionEntries(s, s.metrics[..j + 1]))
      == PlanOf(existing, SectionEntries(s, s.metrics[..j])) + Added(existing, (s, s.metrics[j]))
  {
    TakeTake(s.metrics, j);
    assert SectionEntries(s, s.metrics[..j + 1]) == SectionEntries(s, s.metrics[..j]) + [(s, s.metrics[j])];
    PlanStep(existing, SectionEntries(s, s.metrics[..j]), (s, s.metrics[j]));
  }

  /** The records of the first `j` metrics start the section's records. */
  lemma SectionPlanPrefix(existing: set<string>, s: LabSection, j: nat)
    requires j <= |s.metrics|
    ensures PlanOf(existing, SectionEntries(s, s.metrics[..j])) <= SectionPlan(existing, s)
  {
    SectionEntriesPrefix(s, s.metrics, j);
    PlanPrefix(existing, SectionEntries(s, s.metrics[..j]), SectionEntries(s, s.metrics));
  }

  lemma {:induction false} EntriesAppend(a: seq<LabSection>, b: seq<LabSection>)
    ensures Entries(a + b) == Entries(a) + Entries(b)
    decreases |b|
  {
    if b == [] {
      assert a + b == a;
    } else {
      var n := |b| - 1;
      DropLastAppend(a, b);
      EntriesAppend(a, b[..n]);
      AppendAssoc(Entries(a), Entries(b[..n]), SectionEntries(b[n], b[n].metrics));
    }
  }

  /** Planning over sections is compositional, section list by section list. */
  lemma PlannedAppend(existing: set<string>, a: seq<LabSection>, b: seq<LabSection>)
    ensures Planned(existing, a + b) == Planned(existing, a) + Planned(existing, b)
  {
    EntriesAppend(a, b);
    PlanOfAppend(existing, Entries(a), Entries(b));
  }

  lemma EntriesSingle(s: LabSection)
    ensures Entries([s]) == SectionEntries(s, s.metrics)
  {
    assert [s][..0] == [];
  }

  /** The records planned for a snapshot, split around section `i`. */
  lemma PlannedAround(existing: set<string>, sections: seq<LabSection>, i: nat)
    requires i < |sections|
    ensures Planned(existing, sections)
      == Planned(existing, sections[..i]) + (SectionPlan(existing, sections[i]) + Planned(existing, sections[i + 1..]))
  {
    var s, front, back := sections[i], sections[..i], sections[i + 1..];
    Around(sections, i);
    PlannedAppend(existing, front, [s] + back);
    PlannedAppend(existing, [s], back);
    EntriesSingle(s);
  }

  /** The records of a section depend only on its title and date, not on its other metrics. */
  lemma {:induction false} SectionPlanHeading(existing: set<string>, s: LabSection, t: LabSection, ms: seq<LabMetric>)
    requires s.title == t.title && s.date == t.date
    ensures PlanOf(existing, SectionEntries(s, ms)) == PlanOf(existing, SectionEntries(t, ms))
  {
    if ms != [] {
      var n := |ms| - 1;
      SectionPlanHeading(existing, s, t, ms[..n]);
      PlanStep(existing, SectionEntries(s, ms[..n]), (s, ms[n]));
      PlanStep(existing, SectionEntries(t, ms[..n]), (t, ms[n]));
      assert SyncedRecord(s, ms[n]) == SyncedRecord(t, ms[n]);
    }
  }

  lemma {:induction false} EntriesMember(sections: seq<LabSection>, i: nat, j: nat)
    requires i < |sections| && j < |sections[i].metrics|
    ensures (sections[i], sections[i].metrics[j]) in Entries(sections)
  {
    var n := |sections| - 1;
    if i < n {
      assert sections[..n][i] == sections[i];
      EntriesMember(sections[..n], i, j);
    } else {
      assert SectionEntries(sections[n], sections[n].metrics)[j] == (sections[i], sections[i].metrics[j]);
    }
  }

  lemma {:induction false} EntriesFrom(sections: seq<LabSection>, e: Entry)
    requires e in Entries(sections)
    ensures exists i, j :: 0 <= i < |sections| && 0 <= j < |sections[i].metrics| && e == (sections[i], sections[i].metrics[j])
  {
    var n := |sections| - 1;
    var s := sections[n];
    if e in Entries(sections[..n]) {
      EntriesFrom(sections[..n], e);
      var i, j :| 0 <= i < n && 0 <= j < |sections[..n][i].metrics| && e == (sections[..n][i], sections[..n][i].metrics[j]);
      assert sections[..n][i] == sections[i];
    } else {
      assert e in SectionEntries(s, s.metrics);
      var j :| 0 <= j < |s.metrics| && SectionEntries(s, s.metrics)[j] == e;
      assert e == (sections[n], sections[n].metrics[j]);
    }
  }

  // ---- which metrics are inserted ----

  /** Only metrics whose key was absent before the call are inserted. */
  lemma PlannedOnlyNew(existing: set<string>, sections: seq<LabSection>, k: nat)
    requires k < |Planned(existing, sections)|
    ensures RecordKey(Planned(existing, sections)[k]) !in existing
  {
    PlannedIsFiltered(existing, sections);
    var f := Filter(Entries(sections), NewIn(existing));
    assert NewIn(existing)(f[k]);
    assert Planned(existing, sections)[k] == SyncedRecord(f[k].0, f[k].1);
  }

  /** Every metric whose key was absent before the call is inserted. */
  lemma PlannedCovers(existing: set<string>, sections: seq<LabSection>, i: nat, j: nat)
    requires i < |sections| && j < |sections[i].metrics|
    requires Key(sections[i].date, sections[i].metrics[j].name) !in existing
    ensures SyncedRecord(sections[i], sections[i].metrics[j]) in Planned(existing, sections)
  {
    var e := (sections[i], sections[i].metrics[j]);
    PlannedIsFiltered(existing, sections);
    EntriesMember(sections, i, j);
    var all := Entries(sections);
    var k :| 0 <= k < |all| && all[k] == e;
    assert NewIn(existing)(all[k]);
    var f := Filter(all, NewIn(existing));
    assert e in f;
    var m :| 0 <= m < |f| && f[m] == e;
    assert Planned(existing, sections)[m] == SyncedRecord(e.0, e.1);
  }

  /** A call where every key is already on file inserts nothing. */
  lemma PlannedNothingNew(existing: set<string>, sections: seq<LabSection>)
    requires forall i, j :: 0 <= i < |sections| && 0 <= j < |sections[i].metrics| ==>
      Key(sections[i].date, sections[i].metrics[j].name) in existing
    ensures Planned(existing, sections) == []
  {
    PlannedIsFiltered(existing, sections);
    var f := Filter(Entries(sections), NewIn(existing));
    if f != [] {
      assert f[0] in Entries(sections) && NewIn(existing)(f[0]);
      EntriesFrom(sections, f[0]);
      assert false;
    }
  }

  /** After a call, every key of its sections is on file or among the new records. */
  lemma EveryKeyCovered(existing: set<string>, sections: seq<LabSection>, i: nat, j: nat)
    requires i < |sections| && j < |sections[i].metrics|
    ensures var key := Key(sections[i].date, sections[i].metrics[j].name);
      key in existing || exists k :: 0 <= k < |Planned(existing, sections)| && RecordKey(Planned(existing, sections)[k]) == key
  {
    var key := Key(sections[i].date, sections[i].metrics[j].name);
    if key !in existing {
      PlannedCovers(existing, sections, i, j);
      var r := SyncedRecord(sections[i], sections[i].metrics[j]);
      var p := Planned(existing, sections);
      var k :| 0 <= k < |p| && p[k] == r;
      assert RecordKey(p[k]) == key;
    }
  }

  /** An entry visited twice under a new key adds its record twice. */
  lemma PlanTwice(existing: set<string>, e: Entry)
    requires IsNew(existing, e)
    ensures PlanOf(existing, [e, e]) == [SyncedRecord(e.0, e.1), SyncedRecord(e.0, e.1)]
  {
    var r := SyncedRecord(e.0, e.1);
    PlanStep(existing, [], e);
    assert [] + [e] == [e];
    PlanStep(existing, [e], e);
    assert [e] + [e] == [e, e];
    assert [r] + [r] == [r, r];
  }

  /** The key set is read once: a metric listed twice under an absent key is inserted twice. */
  lemma DuplicatesInsertedTwice(s: LabSection, m: LabMetric)
    requires s.metrics == [m, m]
    ensures Planned({}, [s]) == [SyncedRecord(s, m), SyncedRecord(s, m)]
  {
    EntriesSingle(s);
    assert SectionEntries(s, [m, m]) == [(s, m), (s, m)];
    PlanTwice({}, (s, m));
  }

  // ---- parsing the display string ----

  /** The pieces of "{v} {u}" once trimmed: the number, then the pieces of the unit. */
  lemma RenderedPieces(v: int, u: string)
    requires Trim(u) == u
    ensures var d := Trim(IntToString(v) + " " + u);
      d != "" && Trim(d) == d && Split(d)[0] == IntToString(v) && Join(Split(d)[1..]) == u
  {
    var n := IntToString(v);
    var d := n + " " + u;
    if u == [] {
      assert d == n + " ";
      assert TrimStart(d) == d;
      assert TrimEnd(d) == TrimEnd(n);
      SplitWithoutSpace(n);
    } else {
      assert !IsSpace(u[0]) && !IsSpace(u[|u| - 1]);
      assert d[0] == n[0] && d[|d| - 1] == u[|u| - 1];
      TrimUntouched(d);
      SplitAfterToken(n, u);
      JoinSplit(u);
      assert Split(d)[1..] == Split(u);
    }
    TrimUntouched(Trim(d));
  }

  /** How a quantitative display whose first piece is a number parses. */
  lemma ParseNumericDisplay(display: string, n: int)
    requires display != "" && ParseNumber(Split(Trim(display))[0]) == Some(n)
    ensures ParseDisplay(Quantitative, display) == ParsedValue(Some(n), Join(Split(Trim(display))[1..]), "")
  {
  }

  /** A display "{v} {u}" built from a number and a unit without surrounding blanks parses back to both. */
  lemma ParseRendered(v: int, u: string)
    requires Trim(u) == u
    ensures ParseDisplay(Quantitative, Trim(IntToString(v) + " " + u)) == ParsedValue(Some(v), u, "")
  {
    var d := Trim(IntToString(v) + " " + u);
    RenderedPieces(v, u);
    ParseNumberOfIntToString(v);
    ParseNumericDisplay(d, v);
  }

  /** A qualitative metric is stored whole as text. */
  lemma ParseQualitative(display: string)
    ensures ParseDisplay(Qualitative, display) == ParsedValue(None, "", display)
  {
  }

  /**
   * A quantitative display that starts with something other than white space, a digit or
   * a sign is stored whole, trailing blanks included, as text.
   */
  lemma ParseNotANumber(display: string)
    requires display != [] && !IsSpace(display[0]) && !IsDigit(display[0]) && display[0] != '-' && display[0] != '+'
    ensures ParseDisplay(Quantitative, display) == ParsedValue(None, "", display)
  {
    var t := Trim(display);
    TrimKeepsHead(display);
    assert Split(t)[0][0] == t[0];
    ParseNumberWithoutDigits(Split(t)[0]);
  }
}
