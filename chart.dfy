/**
 * The chart helpers of src/utils/chartUtils.ts: per-grade dash pattern and
 * colour, the season filter, grouping by year and by series, and the
 * tick-interval rule, with the constant tables of src/const/Numbers.ts.
 */
module ChartUtils {
  import opened Wrappers
  import opened Strings
  import opened Dates
  import opened Sorting
  import opened Assoc
  import opened Grouping
  import opened Records
  import opened Arith
  import AnalysisUtils

  // ---------------------------------------------------------------
  // Dash patterns and colours
  // ---------------------------------------------------------------

  function DashPattern(g: Grade): string {
    match g
    case Grade1 => "0"
    case Grade2 => "5,5"
    case Grade3Stopped => "10,5"
    case Grade3Estimated => "15,10,5,10"
    case GradeBelow => "5,10,5"
    case MixedGrade => "20,5"
  }

  /** `getGradeDashPattern`: unknown keys draw like grade 1 (a solid line). */
  function GetGradeDashPattern(gradeKey: string): (r: string)
    ensures GradeOfKey(gradeKey).Some? ==> r == DashPattern(GradeOfKey(gradeKey).value)
    ensures GradeOfKey(gradeKey).None? ==> r == "0"
  {
    match GradeOfKey(gradeKey)
    case Some(g) => DashPattern(g)
    case None => DashPattern(Grade1)
  }

  /** Different grades never share a dash pattern. */
  lemma DashPatternsDistinct(g: Grade, h: Grade)
    ensures g != h ==> GetGradeDashPattern(GradeKey(g)) != GetGradeDashPattern(GradeKey(h))
  {
    GradeKeyRoundTrip(g);
    GradeKeyRoundTrip(h);
  }

  function ColorIndex(g: Grade): nat {
    match g
    case Grade1 => 0
    case Grade2 => 1
    case Grade3Stopped => 2
    case Grade3Estimated => 3
    case GradeBelow => 4
    case MixedGrade => 5
  }

  /** The palette index of a key: unknown keys fall back to grade 1's index, 0. */
  function KeyColorIndex(gradeKey: string): nat {
    match GradeOfKey(gradeKey)
    case Some(g) => ColorIndex(g)
    case None => ColorIndex(Grade1)
  }

  /**
   * `getGradeColor`: `palette[index % palette.length]`; on an empty
   * palette the index is NaN and the result is `undefined` (None).
   */
  function GetGradeColor(gradeKey: string, palette: seq<string>): (r: Option<string>)
    ensures r.Some? <==> |palette| > 0
    ensures r.Some? ==> r.value in palette
    ensures r.Some? && GradeOfKey(gradeKey).None? ==> r.value == palette[0]
  {
    if |palette| == 0 then None else Some(palette[KeyColorIndex(gradeKey) % |palette|])
  }

  /** With at least six colours, the six grades get six different palette slots. */
  lemma ColorsDistinct(g: Grade, h: Grade, palette: seq<string>)
    requires |palette| >= 6
    ensures g != h ==> KeyColorIndex(GradeKey(g)) % |palette| != KeyColorIndex(GradeKey(h)) % |palette|
  {
    GradeKeyRoundTrip(g);
    GradeKeyRoundTrip(h);
  }

  // ---------------------------------------------------------------
  // Season filter and year groups
  // ---------------------------------------------------------------

  /** `new Date(d.date).getMonth() + 1` lies in the season; an invalid date's NaN month never does. */
  predicate InSeason(p: ChartPoint) {
    match ParseIso(p.date)
    case Some(d) => AnalysisUtils.IsMushroomSeason(d)
    case None => false
  }

  function FilterMushroomSeasonData(data: seq<ChartPoint>): (r: seq<ChartPoint>)
    ensures IsSubsequence(r, data)
    ensures forall i :: 0 <= i < |r| ==> InSeason(r[i]) && ParseIso(r[i].date).value.month in {8, 9, 10, 11, 12}
    ensures forall i :: 0 <= i < |data| && InSeason(data[i]) ==> data[i] in r
  {
    FilterIsSubsequence(data, InSeason);
    Filter(data, InSeason)
  }

  /** `new Date(d.date).getFullYear()`; None stands for NaN, which a `Map` treats as one key. */
  function YearOf(p: ChartPoint): Option<int> {
    match ParseIso(p.date)
    case Some(d) => Some(d.year)
    case None => None
  }

  /** `groupDataByYear`. */
  method GroupDataByYear(data: seq<ChartPoint>) returns (yearGroups: Dict<Option<int>, seq<ChartPoint>>)
    ensures yearGroups == GroupBy(data, YearOf)
  {
    yearGroups := [];
    var i := 0;
    while i < |data|
      invariant 0 <= i <= |data|
      invariant yearGroups == GroupBy(data[..i], YearOf)
    {
      assert data[..i + 1][..i] == data[..i];
      var year := YearOf(data[i]);
      var bucket := Get(yearGroups, year).GetOr([]);
      yearGroups := Put(yearGroups, year, bucket + [data[i]]);
      i := i + 1;
    }
    assert data[..|data|] == data;
  }

  // ---------------------------------------------------------------
  // Series
  // ---------------------------------------------------------------

  /** The series key `${region}-${gradeKey}`. */
  function SeriesKey(p: ChartPoint): string {
    p.region + "-" + p.gradeKey
  }

  datatype Series = Series(key: string, region: string, gradeKey: string, color: Option<string>, data: seq<ChartPoint>)

  /** One series from a Map entry: `key.split("-")`, keeping the first two parts. */
  function MakeSeries(key: string, seriesData: seq<ChartPoint>, palette: seq<string>): (s: Series)
    ensures s.key == key && s.data == seriesData
    ensures s.color == GetGradeColor(s.gradeKey, palette)
  {
    var parts := Split(key, '-');
    var gradeKey := if |parts| > 1 then parts[1] else "";
    Series(key, parts[0], gradeKey, GetGradeColor(gradeKey, palette), seriesData)
  }

  function SeriesOf(groups: Dict<string, seq<ChartPoint>>, palette: seq<string>): (r: seq<Series>)
    ensures |r| == |groups|
    ensures forall i :: 0 <= i < |r| ==> r[i] == MakeSeries(groups[i].0, groups[i].1, palette)
  {
    if |groups| == 0 then [] else SeriesOf(groups[..|groups| - 1], palette) + [MakeSeries(groups[|groups| - 1].0, groups[|groups| - 1].1, palette)]
  }

  /** One more Map entry is one more series. */
  lemma SeriesOfPrefix(groups: Dict<string, seq<ChartPoint>>, palette: seq<string>, j: nat)
    requires j < |groups|
    ensures SeriesOf(groups[..j + 1], palette) == SeriesOf(groups[..j], palette) + [MakeSeries(groups[j].0, groups[j].1, palette)]
  {
    assert groups[..j + 1][..j] == groups[..j];
  }

  /** `createDataSeries`: group by series key, then one series per Map entry. */
  method CreateDataSeries(data: seq<ChartPoint>, palette: seq<string>) returns (series: seq<Series>)
    ensures series == SeriesOf(GroupBy(data, SeriesKey), palette)
  {
    var seriesMap: Dict<string, seq<ChartPoint>> := [];
    var i := 0;
    while i < |data|
      invariant 0 <= i <= |data|
      invariant seriesMap == GroupBy(data[..i], SeriesKey)
    {
      GroupByPrefix(data, SeriesKey, i);
      var key := SeriesKey(data[i]);
      var bucket := Get(seriesMap, key).GetOr([]);
      seriesMap := Put(seriesMap, key, bucket + [data[i]]);
      i := i + 1;
    }
    assert data[..|data|] == data;
    series := [];
    var j := 0;
    while j < |seriesMap|
      invariant 0 <= j <= |seriesMap|
      invariant series == SeriesOf(seriesMap[..j], palette)
    {
      SeriesOfPrefix(seriesMap, palette, j);
      series := series + [MakeSeries(seriesMap[j].0, seriesMap[j].1, palette)];
      j := j + 1;
    }
    assert seriesMap[..|seriesMap|] == seriesMap;
  }

  /** Splitting the key recovers region and grade key when neither contains '-'. */
  lemma SeriesRecoversFields(p: ChartPoint, seriesData: seq<ChartPoint>, palette: seq<string>)
    requires '-' !in p.region && '-' !in p.gradeKey
    ensures MakeSeries(SeriesKey(p), seriesData, palette).region == p.region
    ensures MakeSeries(SeriesKey(p), seriesData, palette).gradeKey == p.gradeKey
  {
    SplitPrefix(p.region, p.gradeKey, '-');
    SplitPrefix(p.gradeKey, "", '-');
    assert p.region + "-" + p.gradeKey == p.region + ['-'] + p.gradeKey;
    assert Split(p.gradeKey, '-') == [p.gradeKey];
  }

  /** A region containing '-' is cut short, and its second piece is taken for the grade key. */
  lemma SeriesSplitLosesRegion(a: string, b: string, p: ChartPoint, seriesData: seq<ChartPoint>, palette: seq<string>)
    requires '-' !in a && '-' !in b && '-' !in p.gradeKey
    requires p.region == a + "-" + b
    ensures MakeSeries(SeriesKey(p), seriesData, palette).region == a
    ensures MakeSeries(SeriesKey(p), seriesData, palette).gradeKey == b
  {
    SplitPrefix(b, p.gradeKey, '-');
    var tail := b + ['-'] + p.gradeKey;
    SplitPrefix(a, tail, '-');
    assert SeriesKey(p) == a + ['-'] + tail;
  }

  // ---------------------------------------------------------------
  // Tick interval
  // ---------------------------------------------------------------

  const SHORT_PERIOD: int := 7
  const MEDIUM_PERIOD: int := 15

  /** `Math.ceil(a / b)` for a positive divisor. */
  function CeilDiv(a: int, b: int): (r: int)
    requires b > 0
    ensures (r - 1) * b < a <= r * b
  {
    (a + b - 1) / b
  }

  /** `calculateTickInterval`: a label every so many days, wider on mobile. */
  function CalculateTickInterval(dataSpanDays: int, isMobile: bool): (r: int)
    ensures r >= 1
  {
    if isMobile then
      if dataSpanDays <= SHORT_PERIOD then 2
      else if dataSpanDays <= MEDIUM_PERIOD then 3
      else Max(5, CeilDiv(dataSpanDays, 5))
    else
      if dataSpanDays <= SHORT_PERIOD then 1
      else if dataSpanDays <= MEDIUM_PERIOD then 2
      else Max(3, CeilDiv(dataSpanDays, 7))
  }

  function Max(a: int, b: int): int {
    if a >= b then a else b
  }

  lemma CeilDivMonotone(a: int, b: int, d: int)
    requires d > 0 && a <= b
    ensures CeilDiv(a, d) <= CeilDiv(b, d)
  {
    var ra := CeilDiv(a, d);
    var rb := CeilDiv(b, d);
    assert (ra - 1) * d < rb * d;
    MulCancelLess(ra - 1, rb, d);
  }

  /** A longer span never gets a shorter interval. */
  lemma TickIntervalMonotone(a: int, b: int, isMobile: bool)
    requires a <= b
    ensures CalculateTickInterval(a, isMobile) <= CalculateTickInterval(b, isMobile)
  {
    CeilDivMonotone(a, b, 5);
    CeilDivMonotone(a, b, 7);
  }

  /** Mobile labels are never denser than desktop labels. */
  lemma TickIntervalMobileWider(d: int)
    ensures CalculateTickInterval(d, true) >= CalculateTickInterval(d, false)
  {
    if d > MEDIUM_PERIOD {
      CeilDivMonotone(d * 5, d * 7, 35);
      assert CeilDiv(d, 7) <= CeilDiv(d, 5) by {
        var p := CeilDiv(d, 5);
        assert d <= p * 5 <= p * 7;
      }
    }
  }

  /** For long spans the labels are at most one interval apart: at most divisor-many labels. */
  lemma TickIntervalCoversSpan(d: int, isMobile: bool)
    requires d > MEDIUM_PERIOD
    ensures d <= CalculateTickInterval(d, isMobile) * (if isMobile then 5 else 7)
  {
  }
}
