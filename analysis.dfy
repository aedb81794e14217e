/**
 * The analysis-page helpers of src/utils/analysisUtils.ts: the season
 * test, the day-range generator, the record filter and the conversion of
 * records into chart points.
 */
module AnalysisUtils {
  import opened Wrappers
  import opened Strings
  import opened Dates
  import opened Sorting
  import opened Assoc
  import opened Numbers
  import opened Records
  import opened Arith

  /** First and last month of the mushroom season (1-based). */
  const SEASON_START_MONTH: int := 8
  const SEASON_END_MONTH: int := 12

  predicate IsMushroomSeason(d: Date) {
    SEASON_START_MONTH <= d.month <= SEASON_END_MONTH
  }

  /** Every calendar day from `start` to `end`, both included, one after another. */
  method GenerateDateRange(start: Date, end: Date) returns (dates: seq<Date>)
    requires Valid(start) && Valid(end)
    ensures |dates| == if DayNumber(start) <= DayNumber(end) then DayNumber(end) - DayNumber(start) + 1 else 0
    ensures forall i :: 0 <= i < |dates| ==> Valid(dates[i]) && DayNumber(dates[i]) == DayNumber(start) + i
    ensures forall d :: Valid(d) ==> (d in dates <==> DayNumber(start) <= DayNumber(d) <= DayNumber(end))
  {
    dates := [];
    var current := start;
    while DayNumber(current) <= DayNumber(end)
      invariant Valid(current)
      invariant DayNumber(current) == DayNumber(start) + |dates|
      invariant |dates| == 0 || DayNumber(current) <= DayNumber(end) + 1
      invariant forall i :: 0 <= i < |dates| ==> Valid(dates[i]) && DayNumber(dates[i]) == DayNumber(start) + i
      decreases DayNumber(end) - DayNumber(current)
    {
      dates := dates + [current];
      NextDayNumber(current);
      current := NextDay(current);
    }
    forall d | Valid(d) && DayNumber(start) <= DayNumber(d) <= DayNumber(end)
      ensures d in dates
    {
      var i := DayNumber(d) - DayNumber(start);
      DayNumberInjective(d, dates[i]);
    }
  }

  // ---------------------------------------------------------------
  // applyFilters
  // ---------------------------------------------------------------

  /** The filter state of the analysis page; an empty string selects everything. */
  datatype AnalysisFilters = AnalysisFilters(
    region: string,
    union: string,
    grades: seq<string>,
    startDate: Date,
    endDate: Date)

  /**
   * The date test of `applyFilters`: a record without a date passes, and so
   * does one whose date does not parse (`Invalid Date` compares false).
   */
  predicate DateWithin(date: Option<string>, startDate: Date, endDate: Date) {
    !Truthy(date) ||
    match ParseIso(date.value)
    case None => true
    case Some(d) => !Before(d, startDate) && !Before(endDate, d)
  }

  predicate MatchesFilters(f: AnalysisFilters, r: RawRecord) {
    && (f.region == "" || r.region == f.region)
    && (f.union == "" || r.union == f.union)
    && DateWithin(r.date, f.startDate, f.endDate)
  }

  function ApplyFilters(data: seq<RawRecord>, f: AnalysisFilters): (r: seq<RawRecord>)
    ensures IsSubsequence(r, data)
    ensures forall i :: 0 <= i < |r| ==> MatchesFilters(f, r[i])
    ensures forall i :: 0 <= i < |data| && MatchesFilters(f, data[i]) ==> data[i] in r
  {
    FilterIsSubsequence(data, x => MatchesFilters(f, x));
    Filter(data, x => MatchesFilters(f, x))
  }

  /** Filtering twice with the same filters changes nothing. */
  lemma ApplyFiltersIdempotent(data: seq<RawRecord>, f: AnalysisFilters)
    ensures ApplyFilters(ApplyFilters(data, f), f) == ApplyFilters(data, f)
  {
    FilterIdempotent(data, x => MatchesFilters(f, x));
  }

  /** A parsed record date passes exactly when it lies in the range, both ends included. */
  lemma DateWithinIsRange(s: string, startDate: Date, endDate: Date)
    requires Valid(startDate) && Valid(endDate) && ParseIso(s).Some?
    ensures DateWithin(Some(s), startDate, endDate)
        <==> DayNumber(startDate) <= DayNumber(ParseIso(s).value) <= DayNumber(endDate)
  {
    var d := ParseIso(s).value;
    BeforeIsDayNumberOrder(d, startDate);
    BeforeIsDayNumberOrder(endDate, d);
  }

  // ---------------------------------------------------------------
  // transformToChartData
  // ---------------------------------------------------------------

  /** `${record.date}` in a template: a missing date prints as "undefined". */
  function DateText(date: Option<string>): string {
    if date.Some? then date.value else "undefined"
  }

  /** The de-duplication key `${date}-${region}-${union}`. */
  function ChartKey(r: RawRecord): string {
    DateText(r.date) + "-" + r.region + "-" + r.union
  }

  /** The Map after `grouped.set(key, record)` for every record in order. */
  function Grouped(data: seq<RawRecord>): Dict<string, RawRecord> {
    if |data| == 0 then []
    else Put(Grouped(data[..|data| - 1]), ChartKey(data[|data| - 1]), data[|data| - 1])
  }

  /** Reference: the last record of `data` with key `k`. */
  function LastWithKey(data: seq<RawRecord>, k: string): Option<RawRecord> {
    if |data| == 0 then None
    else if ChartKey(data[|data| - 1]) == k then Some(data[|data| - 1])
    else LastWithKey(data[..|data| - 1], k)
  }

  /** Each key keeps the last record that carries it. */
  lemma {:induction false} GroupedLastWins(data: seq<RawRecord>, k: string)
    ensures Get(Grouped(data), k) == LastWithKey(data, k)
  {
    if |data| > 0 {
      var last := data[|data| - 1];
      GroupedLastWins(data[..|data| - 1], k);
      PutGet(Grouped(data[..|data| - 1]), ChartKey(last), last, k);
    }
  }

  /** One entry per key, so at most one record per (date, region, union) text. */
  lemma {:induction false} GroupedUnique(data: seq<RawRecord>)
    ensures UniqueKeys(Grouped(data))
    ensures |Grouped(data)| <= |data|
  {
    if |data| > 0 {
      var pre := data[..|data| - 1];
      GroupedUnique(pre);
      PutUnique(Grouped(pre), ChartKey(data[|data| - 1]), data[|data| - 1]);
    }
  }

  /** The point for one (record, grade key) pair, if the record qualifies. */
  function GradePoint(r: RawRecord, key: string): (ps: seq<ChartPoint>)
    ensures |ps| <= 1
  {
    match GradeOfKey(key)
    case None => []
    case Some(g) =>
      var e := r.grades.At(g);
      if e.quantity != "" && e.unitPrice != "" then
        var q := LooseNumber(e.quantity);
        var p := LooseNumber(e.unitPrice);
        if q > 0.0 && p > 0.0 && Truthy(r.date) then [ChartPoint(r.date.value, r.region, r.union, key, q, p)]
        else []
      else []
  }

  /** The points of one record, in the order of `keys`. */
  function RecordPoints(r: RawRecord, keys: seq<string>): (ps: seq<ChartPoint>)
    ensures |ps| <= |keys|
  {
    if |keys| == 0 then [] else RecordPoints(r, keys[..|keys| - 1]) + GradePoint(r, keys[|keys| - 1])
  }

  /** The points of every group, in Map order. */
  function GroupPoints(groups: Dict<string, RawRecord>, keys: seq<string>): seq<ChartPoint> {
    if |groups| == 0 then []
    else GroupPoints(groups[..|groups| - 1], keys) + RecordPoints(groups[|groups| - 1].1, keys)
  }

  lemma {:induction false} GroupPointsBound(groups: Dict<string, RawRecord>, keys: seq<string>)
    ensures |GroupPoints(groups, keys)| <= |groups| * |keys|
  {
    if |groups| > 0 {
      var n := |groups|;
      GroupPointsBound(groups[..n - 1], keys);
      assert |GroupPoints(groups, keys)|
          == |GroupPoints(groups[..n - 1], keys)| + |RecordPoints(groups[n - 1].1, keys)|;
      MulStep(n, |keys|);
    }
  }

  /**
   * `new Date(date).getTime()` as a day number, for zero-padded ISO dates;
   * any other text is an Invalid Date, which this model sorts first.
   */
  function DateKey(date: string): int {
    match ParseIso(date)
    case Some(d) => DayNumber(d)
    case None => -1
  }

  predicate ChartDateLe(a: ChartPoint, b: ChartPoint) {
    DateKey(a.date) <= DateKey(b.date)
  }

  lemma ChartDateLeIsTotalPreorder()
    ensures IsTotalPreorder(ChartDateLe)
  {
  }

  /** What `transformToChartData` returns. */
  function ChartData(data: seq<RawRecord>, keys: seq<string>): seq<ChartPoint> {
    SortBy(GroupPoints(Grouped(data), keys), ChartDateLe)
  }

  predicate PointQualifies(p: ChartPoint, keys: seq<string>) {
    p.gradeKey in keys && p.quantityKg > 0.0 && p.unitPriceWon > 0.0 && p.date != ""
  }

  lemma {:induction false} RecordPointsQualify(r: RawRecord, keys: seq<string>)
    ensures forall p :: p in RecordPoints(r, keys) ==> PointQualifies(p, keys)
  {
    if |keys| > 0 {
      var pre := keys[..|keys| - 1];
      RecordPointsQualify(r, pre);
      forall p | p in RecordPoints(r, keys) ensures PointQualifies(p, keys) {
        if p in RecordPoints(r, pre) {
          assert p.gradeKey in pre;
        }
      }
    }
  }

  lemma {:induction false} GroupPointsQualify(groups: Dict<string, RawRecord>, keys: seq<string>)
    ensures forall p :: p in GroupPoints(groups, keys) ==> PointQualifies(p, keys)
  {
    if |groups| > 0 {
      GroupPointsQualify(groups[..|groups| - 1], keys);
      RecordPointsQualify(groups[|groups| - 1].1, keys);
    }
  }

  /** Every point has a selected grade key, a positive quantity, a positive unit price and a date. */
  lemma ChartDataQualifies(data: seq<RawRecord>, keys: seq<string>)
    ensures forall p :: p in ChartData(data, keys) ==> PointQualifies(p, keys)
  {
    var pts := GroupPoints(Grouped(data), keys);
    GroupPointsQualify(Grouped(data), keys);
    forall p | p in ChartData(data, keys) ensures PointQualifies(p, keys) {
      InMultiset(ChartData(data, keys), p);
      InMultiset(pts, p);
    }
  }

  /** At most one point per (group, selected grade). */
  lemma ChartDataBound(data: seq<RawRecord>, keys: seq<string>)
    ensures |ChartData(data, keys)| <= |Grouped(data)| * |keys| <= |data| * |keys|
  {
    GroupPointsBound(Grouped(data), keys);
    GroupedUnique(data);
    MulMonotone(|Grouped(data)|, |data|, |keys|);
  }

  /** The points come out in date order. */
  lemma ChartDataSorted(data: seq<RawRecord>, keys: seq<string>)
    ensures SortedBy(ChartData(data, keys), ChartDateLe)
  {
    ChartDateLeIsTotalPreorder();
    SortBySorted(GroupPoints(Grouped(data), keys), ChartDateLe);
  }

  /** A point of one selected grade is among its record's points. */
  lemma {:induction false} RecordPointsPresent(r: RawRecord, keys: seq<string>, i: nat, p: ChartPoint)
    requires i < |keys| && p in GradePoint(r, keys[i])
    ensures p in RecordPoints(r, keys)
  {
    var n := |keys| - 1;
    var pre := RecordPoints(r, keys[..n]);
    var last := GradePoint(r, keys[n]);
    RecordPointsStep(r, keys);
    if i < n {
      assert keys[..n][i] == keys[i];
      RecordPointsPresent(r, keys[..n], i, p);
      assert p in pre;
    } else {
      assert i == n;
    }
    InAppend(pre, last, p);
  }

  lemma RecordPointsStep(r: RawRecord, keys: seq<string>)
    requires |keys| > 0
    ensures RecordPoints(r, keys) == RecordPoints(r, keys[..|keys| - 1]) + GradePoint(r, keys[|keys| - 1])
  {
  }

  /** Every point of a record comes from one selected grade. */
  lemma {:induction false} RecordPointsSource(r: RawRecord, keys: seq<string>, p: ChartPoint) returns (i: nat)
    requires p in RecordPoints(r, keys)
    ensures i < |keys| && p in GradePoint(r, keys[i])
  {
    var n := |keys| - 1;
    if p in GradePoint(r, keys[n]) {
      return n;
    }
    i := RecordPointsSource(r, keys[..n], p);
    assert keys[..n][i] == keys[i];
  }

  /** A point of one group's record is among all the groups' points. */
  lemma {:induction false} GroupPointsPresent(groups: Dict<string, RawRecord>, keys: seq<string>, j: nat, p: ChartPoint)
    requires j < |groups| && p in RecordPoints(groups[j].1, keys)
    ensures p in GroupPoints(groups, keys)
  {
    var n := |groups| - 1;
    var pre := GroupPoints(groups[..n], keys);
    var last := RecordPoints(groups[n].1, keys);
    GroupPointsStep(groups, keys);
    if j < n {
      assert groups[..n][j] == groups[j];
      GroupPointsPresent(groups[..n], keys, j, p);
    } else {
      assert j == n;
    }
    InAppend(pre, last, p);
  }

  lemma GroupPointsStep(groups: Dict<string, RawRecord>, keys: seq<string>)
    requires |groups| > 0
    ensures GroupPoints(groups, keys) == GroupPoints(groups[..|groups| - 1], keys) + RecordPoints(groups[|groups| - 1].1, keys)
  {
  }

  /** Every point of the groups comes from one group's record. */
  lemma {:induction false} GroupPointsSource(groups: Dict<string, RawRecord>, keys: seq<string>, p: ChartPoint) returns (j: nat)
    requires p in GroupPoints(groups, keys)
    ensures j < |groups| && p in RecordPoints(groups[j].1, keys)
  {
    var n := |groups| - 1;
    if p in RecordPoints(groups[n].1, keys) {
      return n;
    }
    j := GroupPointsSource(groups[..n], keys, p);
    assert groups[..n][j] == groups[j];
  }

  /**
   * Every point that the record kept for a key and a selected grade
   * produce is plotted.
   */
  lemma ChartPointPresent(data: seq<RawRecord>, keys: seq<string>, k: string, key: string, p: ChartPoint)
    requires LastWithKey(data, k).Some? && key in keys
    requires p in GradePoint(LastWithKey(data, k).value, key)
    ensures p in ChartData(data, keys)
  {
    var groups := Grouped(data);
    var r := LastWithKey(data, k).value;
    GroupedLastWins(data, k);
    assert (k, r) in groups;
    var j :| 0 <= j < |groups| && groups[j] == (k, r);
    var i :| 0 <= i < |keys| && keys[i] == key;
    RecordPointsPresent(r, keys, i, p);
    GroupPointsPresent(groups, keys, j, p);
    InMultiset(GroupPoints(groups, keys), p);
    InMultiset(ChartData(data, keys), p);
  }

  /**
   * Every plotted point comes from the record kept for some key and
   * from one selected grade.
   */
  lemma ChartPointSource(data: seq<RawRecord>, keys: seq<string>, p: ChartPoint) returns (k: string, key: string)
    requires p in ChartData(data, keys)
    ensures key in keys && LastWithKey(data, k).Some?
    ensures p in GradePoint(LastWithKey(data, k).value, key)
  {
    var groups := Grouped(data);
    InMultiset(ChartData(data, keys), p);
    InMultiset(GroupPoints(groups, keys), p);
    var j := GroupPointsSource(groups, keys, p);
    var i := RecordPointsSource(groups[j].1, keys, p);
    GroupedUnique(data);
    GetAtUnique(groups, j);
    k := groups[j].0;
    key := keys[i];
    GroupedLastWins(data, k);
  }

  /** The first `forEach` of `transformToChartData`: `grouped.set(key, record)` per record. */
  method GroupByKey(data: seq<RawRecord>) returns (grouped: Dict<string, RawRecord>)
    ensures grouped == Grouped(data)
  {
    grouped := [];
    var i := 0;
    while i < |data|
      invariant 0 <= i <= |data|
      invariant grouped == Grouped(data[..i])
    {
      assert data[..i + 1][..i] == data[..i];
      grouped := Put(grouped, ChartKey(data[i]), data[i]);
      i := i + 1;
    }
    assert data[..|data|] == data;
  }

  /** The inner `forEach` over the selected grades of one record. */
  method PointsOfRecord(record: RawRecord, selectedGrades: seq<string>) returns (points: seq<ChartPoint>)
    ensures points == RecordPoints(record, selectedGrades)
  {
    points := [];
    var j := 0;
    while j < |selectedGrades|
      invariant 0 <= j <= |selectedGrades|
      invariant points == RecordPoints(record, selectedGrades[..j])
    {
      var next := selectedGrades[..j + 1];
      assert next[..j] == selectedGrades[..j] && next[j] == selectedGrades[j];
      var pt := GradePoint(record, selectedGrades[j]);
      assert RecordPoints(record, next) == RecordPoints(record, selectedGrades[..j]) + pt;
      points := points + pt;
      j := j + 1;
    }
    assert selectedGrades[..|selectedGrades|] == selectedGrades;
  }

  /** The outer `forEach` over the groups, pushing each record's points. */
  method CollectPoints(grouped: Dict<string, RawRecord>, selectedGrades: seq<string>) returns (points: seq<ChartPoint>)
    ensures points == GroupPoints(grouped, selectedGrades)
  {
    points := [];
    var g := 0;
    while g < |grouped|
      invariant 0 <= g <= |grouped|
      invariant points == GroupPoints(grouped[..g], selectedGrades)
    {
      var more := PointsOfRecord(grouped[g].1, selectedGrades);
      assert grouped[..g + 1][..g] == grouped[..g];
      points := points + more;
      g := g + 1;
    }
    assert grouped[..|grouped|] == grouped;
  }

  /** `transformToChartData`: group by key (last wins), expand grades, sort by date. */
  method TransformToChartData(data: seq<RawRecord>, selectedGrades: seq<string>) returns (chartData: seq<ChartPoint>)
    ensures chartData == ChartData(data, selectedGrades)
    ensures forall p :: p in chartData ==> PointQualifies(p, selectedGrades)
    ensures SortedBy(chartData, ChartDateLe)
    ensures forall k, key, p ::
      (LastWithKey(data, k).Some? && key in selectedGrades && p in GradePoint(LastWithKey(data, k).value, key)) ==> p in chartData
  {
    var grouped := GroupByKey(data);
    var points := CollectPoints(grouped, selectedGrades);
    chartData := SortBy(points, ChartDateLe);
    ChartDataQualifies(data, selectedGrades);
    ChartDataSorted(data, selectedGrades);
    forall k, key, p | LastWithKey(data, k).Some? && key in selectedGrades && p in GradePoint(LastWithKey(data, k).value, key)
      ensures p in chartData
    {
      ChartPointPresent(data, selectedGrades, k, key, p);
    }
  }

  // ---------------------------------------------------------------
  // The de-duplication key
  // ---------------------------------------------------------------

  /** With no '-' inside regions and unions, equal keys mean the same date text, region and union. */
  lemma ChartKeyInjective(a: RawRecord, b: RawRecord)
    requires '-' !in a.region && '-' !in a.union && '-' !in b.region && '-' !in b.union
    requires ChartKey(a) == ChartKey(b)
    ensures DateText(a.date) == DateText(b.date) && a.region == b.region && a.union == b.union
  {
    var x := DateText(a.date) + "-" + a.region;
    var y := DateText(b.date) + "-" + b.region;
    SplitAtLast(x, a.union, y, b.union, '-');
    SplitAtLast(DateText(a.date), a.region, DateText(b.date), b.region, '-');
  }

  /** A separator cannot hide in a suffix that does not contain it. */
  lemma SplitAtLast(x: string, u: string, y: string, v: string, c: char)
    requires c !in u && c !in v
    requires x + [c] + u == y + [c] + v
    ensures x == y && u == v
  {
    var s := x + [c] + u;
    SameSuffixLength(x, u, y, v, c);
    assert x == s[..|x|] && y == s[..|y|];
    assert u == s[|x| + 1..] && v == s[|y| + 1..];
  }

  lemma SameSuffixLength(x: string, u: string, y: string, v: string, c: char)
    requires c !in u && c !in v
    requires x + [c] + u == y + [c] + v
    ensures |u| == |v|
  {
    var s := x + [c] + u;
    assert forall i :: |s| - |v| <= i < |s| ==> s[i] == v[i - (|s| - |v|)];
    assert forall i :: |s| - |u| <= i < |s| ==> s[i] == u[i - (|s| - |u|)];
    assert s[|s| - |u| - 1] == c && s[|s| - |v| - 1] == c;
  }

  /** A region containing '-' lets two different places share one group. */
  lemma ChartKeyCollision()
    ensures exists a: RawRecord, b: RawRecord :: a.region != b.region && ChartKey(a) == ChartKey(b)
  {
    var q := Stage("", "", "");
    var e := Priced("", "");
    var gs := Grades(e, e, e, e, e, e);
    var a := RawRecord("a-b", "c", Some("2024-10-01"), None, q, q, gs);
    var b := RawRecord("a", "b-c", Some("2024-10-01"), None, q, q, gs);
    assert ChartKey(a) == "2024-10-01-a-b-c" == ChartKey(b);
  }
}
