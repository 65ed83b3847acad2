/**
 * The lab results screen: the tests that can be charted, the chart's selection and
 * points, the type filter of the table, and the record the entry form submits.
 */
module LabResults {
  import opened Basics
  import opened Seqs
  import opened Records

  // ---- the chart ----

  /** A result the chart can plot: quantitative with a value. */
  predicate Chartable(r: LabResult) {
    r.resultType == Quantitative && r.value.Some?
  }

  function ChartableFilter(): LabResult -> bool {
    (r: LabResult) => Chartable(r)
  }

  function TestNames(results: seq<LabResult>): seq<string> {
    seq(|results|, k requires 0 <= k < |results| => results[k].testName)
  }

  /** The names of the chartable tests, each once, in the order they first occur. */
  function AvailableTests(results: seq<LabResult>): seq<string> {
    Distinct(TestNames(Filter(results, ChartableFilter())))
  }

  /**
   * The chart-selection effect: with tests to chart, a selection that is empty or not
   * among them moves to the first test; otherwise it stays.
   */
  function NextSelection(tests: seq<string>, selected: string): (s: string)
    ensures tests != [] ==> s in tests
    ensures (tests == [] || (selected != "" && selected in tests)) ==> s == selected
  {
    if |tests| > 0 && (selected == "" || selected !in tests) then tests[0] else selected
  }

  datatype ChartPoint = ChartPoint(date: string, value: int)

  predicate DateLe(a: LabResult, b: LabResult) {
    StrLe(a.date, b.date)
  }

  function PlotsTest(name: string): LabResult -> bool {
    (r: LabResult) => r.testName == name && Chartable(r)
  }

  function Points(results: seq<LabResult>): seq<ChartPoint>
    requires forall k :: 0 <= k < |results| ==> results[k].value.Some?
  {
    seq(|results|, k requires 0 <= k < |results| => ChartPoint(results[k].date, results[k].value.value))
  }

  /** The chosen test's chartable results, oldest first. */
  function ChartResults(results: seq<LabResult>, selected: string): (r: seq<LabResult>)
    ensures forall k :: 0 <= k < |r| ==> r[k].value.Some?
  {
    if selected == "" then []
    else
      var s := SortBy(Filter(results, PlotsTest(selected)), DateLe);
      assert forall k :: 0 <= k < |s| ==> s[k] in multiset(Filter(results, PlotsTest(selected)));
      s
  }

  /** The points of the chart: date and value of each of the chosen test's results, oldest first. */
  function ChartData(results: seq<LabResult>, selected: string): seq<ChartPoint> {
    Points(ChartResults(results, selected))
  }

  // ---- the table filter ----

  datatype TypeFilter = AllTypes | OnlyType(kind: ResultType)

  function OfFilter(filter: TypeFilter): LabResult -> bool {
    (r: LabResult) => filter.AllTypes? || r.resultType == filter.kind
  }

  function FilteredResults(results: seq<LabResult>, filter: TypeFilter): seq<LabResult> {
    Filter(results, OfFilter(filter))
  }

  // ---- the entry form ----

  /** The entry form's fields: a new record's defaults, or a copy of the record being edited. */
  datatype LabForm = LabForm(
    id: Option<string>,
    date: string,
    testName: string,
    category: string,
    resultType: ResultType,
    value: Option<int>,
    textValue: Option<string>,
    unit: Option<string>,
    isAbnormal: Option<bool>,
    fileName: Option<string>,
    fileUrl: Option<string>)

  /** The record the form submits; `uploaded` is the address the file upload returned, if any. */
  function BuildLabRecord(form: LabForm, uploaded: Option<string>): (r: Option<LabResult>)
    ensures r.None? <==> form.testName == "" || form.date == ""
    ensures r.Some? ==> r.value.testName == form.testName && r.value.date == form.date && r.value.resultType == form.resultType
  {
    if form.testName == "" || form.date == "" then None
    else
      var quantitative := form.resultType == Quantitative;
      Some(LabResult(
        OrDefault(form.id.GetOr(""), ""),
        form.date, form.testName,
        OrDefault(form.category, "Bioquímica"),
        form.resultType,
        if quantitative then form.value else None,
        if !quantitative then form.textValue else None,
        if quantitative then form.unit else None,
        Some(form.isAbnormal == Some(true)),
        form.fileName,
        if Truthy(uploaded) then uploaded else form.fileUrl))
  }

  /** The form `handleOpenCreate` starts from. */
  function BlankLabForm(today: string): LabForm {
    LabForm(None, today, "", "Bioquímica", Quantitative, Some(0), Some(""), Some("mg/dL"), Some(false), Some(""), Some(""))
  }

  /** The form `handleOpenEdit` fills with a copy of the record. */
  function FormOf(r: LabResult): LabForm {
    LabForm(Some(r.id), r.date, r.testName, r.category, r.resultType, r.value, r.textValue, r.unit,
      r.isAbnormal, r.fileName, r.fileUrl)
  }

  /** What a submit asks of the application. */
  datatype Submission = Add(record: LabResult) | Update(record: LabResult)

  class LabPanel {
    var selectedChartTest: string
    var typeFilter: TypeFilter
    var isEditing: bool
    var formData: LabForm

    constructor (today: string)
      ensures selectedChartTest == "" && typeFilter == AllTypes && !isEditing && formData == BlankLabForm(today)
    {
      selectedChartTest := "";
      typeFilter := AllTypes;
      isEditing := false;
      formData := BlankLabForm(today);
    }

    /** The effect that runs whenever the results or the selection change. */
    method RefreshSelection(results: seq<LabResult>)
      modifies this
      ensures selectedChartTest == NextSelection(AvailableTests(results), old(selectedChartTest))
      ensures typeFilter == old(typeFilter) && isEditing == old(isEditing) && formData == old(formData)
    {
      var availableTests := AvailableTests(results);
      if |availableTests| > 0 && (selectedChartTest == "" || selectedChartTest !in availableTests) {
        selectedChartTest := availableTests[0];
      }
    }

    method ChooseFilter(filter: TypeFilter)
      modifies this
      ensures typeFilter == filter
      ensures selectedChartTest == old(selectedChartTest) && isEditing == old(isEditing) && formData == old(formData)
    {
      typeFilter := filter;
    }

    method OpenCreate(today: string)
      modifies this
      ensures !isEditing && formData == BlankLabForm(today)
      ensures selectedChartTest == old(selectedChartTest) && typeFilter == old(typeFilter)
    {
      isEditing := false;
      formData := BlankLabForm(today);
    }

    method OpenEdit(result: LabResult)
      modifies this
      ensures isEditing && formData == FormOf(result)
      ensures selectedChartTest == old(selectedChartTest) && typeFilter == old(typeFilter)
    {
      isEditing := true;
      formData := FormOf(result);
    }

    /**
     * `handleSubmit`: nothing without a test name and a date; otherwise the record is
     * sent as an update or an addition. An added quantitative record becomes the chart's
     * test (`Number(...)` never yields `undefined`, so the source's value test always passes).
     */
    method Submit(uploaded: Option<string>) returns (sent: Option<Submission>)
      modifies this
      ensures BuildLabRecord(formData, uploaded).None? ==> sent.None? && selectedChartTest == old(selectedChartTest)
      ensures BuildLabRecord(formData, uploaded).Some? && isEditing ==>
        sent == Some(Update(BuildLabRecord(formData, uploaded).value)) && selectedChartTest == old(selectedChartTest)
      ensures BuildLabRecord(formData, uploaded).Some? && !isEditing ==>
        && sent == Some(Add(BuildLabRecord(formData, uploaded).value))
        && selectedChartTest == (if formData.resultType == Quantitative then formData.testName else old(selectedChartTest))
      ensures typeFilter == old(typeFilter) && isEditing == old(isEditing) && formData == old(formData)
    {
      sent := None;
      var resultData := BuildLabRecord(formData, uploaded);
      if resultData.None? {
        return;
      }
      if isEditing {
        sent := Some(Update(resultData.value));
      } else {
        sent := Some(Add(resultData.value));
        if resultData.value.resultType == Quantitative {
          selectedChartTest := resultData.value.testName;
        }
      }
    }
  }

  // ---- properties ----

  /** The chartable tests are listed once each, exactly the names of the chartable results. */
  lemma AvailableTestsMeaning(results: seq<LabResult>)
    ensures NoDuplicates(AvailableTests(results))
    ensures forall k :: 0 <= k < |results| && Chartable(results[k]) ==> results[k].testName in AvailableTests(results)
    ensures forall name :: name in AvailableTests(results) ==>
      exists k :: 0 <= k < |results| && Chartable(results[k]) && results[k].testName == name
  {
    var chartable := Filter(results, ChartableFilter());
    var names := TestNames(chartable);
    forall k | 0 <= k < |results| && Chartable(results[k]) ensures results[k].testName in AvailableTests(results) {
      assert ChartableFilter()(results[k]);
      var i :| 0 <= i < |chartable| && chartable[i] == results[k];
      assert names[i] == results[k].testName;
    }
    forall name | name in AvailableTests(results)
      ensures exists k :: 0 <= k < |results| && Chartable(results[k]) && results[k].testName == name
    {
      var i :| 0 <= i < |names| && names[i] == name;
      assert chartable[i] in results && ChartableFilter()(chartable[i]);
      var k :| 0 <= k < |results| && results[k] == chartable[i];
    }
  }

  /** The effect settles: run again on the same tests, it keeps the selection it made. */
  lemma SelectionSettles(tests: seq<string>, selected: string)
    ensures NextSelection(tests, NextSelection(tests, selected)) == NextSelection(tests, selected)
  {
    if tests != [] {
      assert NextSelection(tests, selected) in tests;
    }
  }

  /** The chart is in ascending date order and plots exactly the chosen test's chartable results. */
  lemma ChartDataMeaning(results: seq<LabResult>, selected: string)
    ensures selected == "" ==> ChartData(results, selected) == []
    ensures SortedBy(ChartResults(results, selected), DateLe)
    ensures selected != "" ==> multiset(ChartResults(results, selected)) == multiset(Filter(results, PlotsTest(selected)))
    ensures forall k :: 0 <= k < |ChartResults(results, selected)| ==>
      (ChartResults(results, selected)[k].testName == selected && Chartable(ChartResults(results, selected)[k]))
  {
    if selected != "" {
      var chosen := Filter(results, PlotsTest(selected));
      StrLeIsTotalPreorder();
      assert TotalPreorder(DateLe) by {
        forall a: LabResult, b: LabResult ensures DateLe(a, b) || DateLe(b, a) {
          StrLeTotal(a.date, b.date);
        }
        forall a: LabResult, b: LabResult, c: LabResult | DateLe(a, b) && DateLe(b, c) ensures DateLe(a, c) {
          StrLeTransitive(a.date, b.date, c.date);
        }
      }
      SortBySorted(chosen, DateLe);
      var r := ChartResults(results, selected);
      forall k | 0 <= k < |r| ensures r[k].testName == selected && Chartable(r[k]) {
        assert r[k] in multiset(chosen);
        assert PlotsTest(selected)(r[k]);
      }
    }
  }

  /** The whole list under `all`; otherwise exactly the results of that type, in order. */
  lemma FilteredResultsMeaning(results: seq<LabResult>, filter: TypeFilter)
    ensures filter.AllTypes? ==> FilteredResults(results, filter) == results
    ensures filter.OnlyType? ==>
      && (forall k :: 0 <= k < |FilteredResults(results, filter)| ==>
            FilteredResults(results, filter)[k] in results && FilteredResults(results, filter)[k].resultType == filter.kind)
      && (forall k :: 0 <= k < |results| && results[k].resultType == filter.kind ==> results[k] in FilteredResults(results, filter))
  {
    if filter.AllTypes? {
      FilterAll(results, OfFilter(filter));
    } else {
      forall k | 0 <= k < |results| && results[k].resultType == filter.kind ensures results[k] in FilteredResults(results, filter) {
        assert OfFilter(filter)(results[k]);
      }
    }
  }

  /** A submitted record carries a value and a unit only when quantitative, and a text only when qualitative. */
  lemma RecordValueXorText(form: LabForm, uploaded: Option<string>)
    requires BuildLabRecord(form, uploaded).Some?
    ensures var r := BuildLabRecord(form, uploaded).value;
      && (r.resultType == Quantitative ==> r.textValue.None? && r.value == form.value && r.unit == form.unit)
      && (r.resultType == Qualitative ==> r.value.None? && r.unit.None? && r.textValue == form.textValue)
      && (form.category == "" ==> r.category == "Bioquímica")
      && (form.category != "" ==> r.category == form.category)
      && r.isAbnormal.Some?
  {
  }

  /**
   * Editing a record and saving it unchanged sends the record back, for every record of
   * the shape the form itself produces.
   */
  lemma EditRoundTrip(r: LabResult)
    requires r.testName != "" && r.date != "" && r.category != "" && r.isAbnormal.Some?
    requires r.resultType == Quantitative ==> r.textValue.None?
    requires r.resultType == Qualitative ==> r.value.None? && r.unit.None?
    ensures BuildLabRecord(FormOf(r), None) == Some(r)
  {
    var b := BuildLabRecord(FormOf(r), None).value;
    assert b.id == r.id && b.category == r.category && b.fileUrl == r.fileUrl;
    assert b.isAbnormal == r.isAbnormal by {
      if r.isAbnormal.value {
        assert r.isAbnormal == Some(true);
      } else {
        assert r.isAbnormal == Some(false);
      }
    }
    assert b.value == r.value && b.textValue == r.textValue && b.unit == r.unit;
  }
}
