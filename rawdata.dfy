/**
 * The pure helpers of the scraping run in tests/generateRawData.spec.ts:
 * the in-season days of a date range, the `YYYYMMDD` query date, and the
 * comparison that decides whether a day's freshly scraped records differ
 * from the stored ones.
 */
module GenerateRawData {
  import opened Wrappers
  import opened Strings
  import opened Dates
  import opened Records
  import AnalysisUtils

  /** The scraper only asks for September to November. */
  const MIN_MONTH: int := 9
  const MAX_MONTH: int := 11

  predicate InScrapeWindow(d: Date) {
    MIN_MONTH <= d.month <= MAX_MONTH
  }

  /** The scrape window lies inside the season the charts show. */
  lemma ScrapeWindowInSeason(d: Date)
    requires InScrapeWindow(d)
    ensures AnalysisUtils.IsMushroomSeason(d)
  {
  }

  /**
   * What `generateDateRange` has collected before `date`: valid in-window
   * days of `[start, date)`, none after `end`, in increasing order.
   */
  ghost predicate RangeCollected(dates: seq<Date>, start: Date, date: Date, end: Date)
    requires Valid(start) && Valid(date) && Valid(end)
  {
    && (forall i :: 0 <= i < |dates| ==> Valid(dates[i]) && InScrapeWindow(dates[i]))
    && (forall i :: 0 <= i < |dates| ==> DayNumber(start) <= DayNumber(dates[i]) < DayNumber(date))
    && (forall i :: 0 <= i < |dates| ==> DayNumber(dates[i]) <= DayNumber(end))
    && (forall i, j :: 0 <= i < j < |dates| ==> DayNumber(dates[i]) < DayNumber(dates[j]))
  }

  /** Every in-window day of `[start, date)` has been collected. */
  ghost predicate RangeCovers(dates: seq<Date>, start: Date, date: Date)
    requires Valid(start) && Valid(date)
  {
    forall d :: Valid(d) && DayNumber(start) <= DayNumber(d) < DayNumber(date) && InScrapeWindow(d) ==> d in dates
  }

  /** The day at hand joins the collected days when it is in the window. */
  function Collect(dates: seq<Date>, date: Date): seq<Date> {
    if InScrapeWindow(date) then dates + [date] else dates
  }

  lemma CollectedStep(dates: seq<Date>, start: Date, date: Date, end: Date)
    requires Valid(start) && Valid(date) && Valid(end)
    requires DayNumber(start) <= DayNumber(date) <= DayNumber(end)
    requires RangeCollected(dates, start, date, end)
    ensures RangeCollected(Collect(dates, date), start, NextDay(date), end)
  {
    NextDayNumber(date);
  }

  lemma CoversStep(dates: seq<Date>, start: Date, date: Date)
    requires Valid(start) && Valid(date)
    requires RangeCovers(dates, start, date)
    ensures RangeCovers(Collect(dates, date), start, NextDay(date))
  {
    NextDayNumber(date);
    var next := NextDay(date);
    var dates' := Collect(dates, date);
    forall d | Valid(d) && DayNumber(start) <= DayNumber(d) < DayNumber(next) && InScrapeWindow(d)
      ensures d in dates'
    {
      if DayNumber(d) == DayNumber(date) {
        DayNumberInjective(d, date);
      }
    }
  }

  /** `generateDateRange`: the in-window days from `start` to `end`, both included, in calendar order. */
  method GenerateDateRange(start: Date, end: Date) returns (dates: seq<Date>)
    requires Valid(start) && Valid(end)
    ensures forall i :: 0 <= i < |dates| ==> Valid(dates[i]) && InScrapeWindow(dates[i])
    ensures forall i, j :: 0 <= i < j < |dates| ==> DayNumber(dates[i]) < DayNumber(dates[j])
    ensures forall d :: Valid(d) ==> (d in dates <==> DayNumber(start) <= DayNumber(d) <= DayNumber(end) && InScrapeWindow(d))
  {
    dates := [];
    var date := start;
    while DayNumber(date) <= DayNumber(end)
      invariant Valid(date) && DayNumber(start) <= DayNumber(date)
      invariant RangeCollected(dates, start, date, end)
      invariant RangeCovers(dates, start, date)
      decreases DayNumber(end) - DayNumber(date)
    {
      CollectedStep(dates, start, date, end);
      CoversStep(dates, start, date);
      NextDayNumber(date);
      var month := date.month;
      if month >= MIN_MONTH && month <= MAX_MONTH {
        dates := dates + [date];
      }
      date := NextDay(date);
    }
  }

  // ---------------------------------------------------------------
  // Query date
  // ---------------------------------------------------------------

  /** `formatDateForQuery`: the year as printed, then month and day padded to two digits. */
  function FormatDateForQuery(d: Date): string
    requires Valid(d) && d.year >= 0
  {
    NatToString(d.year) + Pad2(d.month) + Pad2(d.day)
  }

  /** Read back an eight-digit `YYYYMMDD`. */
  function ParseQueryDate(s: string): Option<Date> {
    if |s| == 8 && AllDigits(s) then
      var d := Date(DigitsValue(s[..4]), DigitsValue(s[4..6]), DigitsValue(s[6..]));
      if Valid(d) then Some(d) else None
    else None
  }

  lemma FourDigitYear(y: nat)
    requires 1000 <= y <= 9999
    ensures |NatToString(y)| == 4 && DigitsValue(NatToString(y)) == y
  {
    assert Pow10(3) == 1000 && Pow10(4) == 10000 by {
      assert Pow10(1) == 10 && Pow10(2) == 100;
    }
    NatToStringLengthAtLeast(y, 3);
    NatToStringLength(y, 4);
    NatToStringRoundTrip(y);
  }

  /** Four, two and two digits side by side: eight digits that cut back into the fields. */
  lemma EightDigits(y: string, m: string, dd: string)
    requires |y| == 4 && |m| == 2 && |dd| == 2
    requires AllDigits(y) && AllDigits(m) && AllDigits(dd)
    ensures |y + m + dd| == 8 && AllDigits(y + m + dd)
    ensures (y + m + dd)[..4] == y && (y + m + dd)[4..6] == m && (y + m + dd)[6..] == dd
  {
    var s := y + m + dd;
    assert s[..4] == y && s[4..6] == m && s[6..] == dd;
    forall i | 0 <= i < |s| ensures IsDigit(s[i]) {
      if i < 4 {
        assert s[i] == y[i];
      } else if i < 6 {
        assert s[i] == m[i - 4];
      } else {
        assert s[i] == dd[i - 6];
      }
    }
  }

  /** For four-digit years the query date is eight digits and reads back as the same day. */
  lemma QueryDateRoundTrip(d: Date)
    requires Valid(d) && 1000 <= d.year <= 9999
    ensures |FormatDateForQuery(d)| == 8
    ensures ParseQueryDate(FormatDateForQuery(d)) == Some(d)
  {
    FourDigitYear(d.year);
    PaddedField(d.month, 2);
    PaddedField(d.day, 2);
    EightDigits(NatToString(d.year), Pad2(d.month), Pad2(d.day));
  }

  /** Different days never share a query date. */
  lemma QueryDateInjective(a: Date, b: Date)
    requires Valid(a) && 1000 <= a.year <= 9999 && Valid(b) && 1000 <= b.year <= 9999
    ensures FormatDateForQuery(a) == FormatDateForQuery(b) ==> a == b
  {
    QueryDateRoundTrip(a);
    QueryDateRoundTrip(b);
  }

  lemma {:induction false} RemoveDashes(a: string, b: string, c: string)
    requires '-' !in a && '-' !in b && '-' !in c
    ensures RemoveAll(a + "-" + b + "-" + c, '-') == a + b + c
  {
    var dash := "-";
    RemoveAllAppend(a + dash + b + dash, c, '-');
    RemoveAllAppend(a + dash + b, dash, '-');
    RemoveAllAppend(a + dash, b, '-');
    RemoveAllAppend(a, dash, '-');
    assert RemoveAll(dash, '-') == [];
    RemoveAllIdentity(a, '-');
    RemoveAllIdentity(b, '-');
    RemoveAllIdentity(c, '-');
  }

  /** The query date is the ISO date without its dashes. */
  lemma QueryDateIsIsoWithoutDashes(d: Date)
    requires Valid(d) && 1000 <= d.year <= 9999
    ensures RemoveAll(ToIso(d), '-') == FormatDateForQuery(d)
  {
    var y := NatToString(d.year);
    FourDigitYear(d.year);
    PaddedField(d.month, 2);
    PaddedField(d.day, 2);
    NatToStringNoDash(d.year);
    assert PadStart(y, 4, '0') == y;
    RemoveDashes(y, Pad2(d.month), Pad2(d.day));
  }

  // ---------------------------------------------------------------
  // Change detection
  // ---------------------------------------------------------------

  datatype ChangeSummary = ChangeSummary(hasChanges: bool, summary: string)

  const NEW_DATA: string := "신규 데이터"
  const QUANTITY_UPDATED: string := "경매 수량 업데이트"
  const NO_CHANGES: string := "변경사항 없음"

  function CountChanged(oldCount: nat, newCount: nat): string {
    "레코드 수 변경 (" + NatToString(oldCount) + " → " + NatToString(newCount) + ")"
  }

  function PriceUpdated(g: Grade): string {
    GradeKey(g) + " 가격 업데이트"
  }

  /** The first grade, in `grades` order, whose entry differs. */
  function FirstGradeChange(a: RawRecord, b: RawRecord, grades: seq<Grade>): (r: Option<Grade>)
    ensures r.Some? ==> r.value in grades && a.grades.At(r.value) != b.grades.At(r.value)
    ensures r.None? ==> forall k :: 0 <= k < |grades| ==> a.grades.At(grades[k]) == b.grades.At(grades[k])
  {
    if |grades| == 0 then None
    else if a.grades.At(grades[0]) != b.grades.At(grades[0]) then Some(grades[0])
    else FirstGradeChange(a, b, grades[1..])
  }

  /** The verdict for the record pairs from index `i` on, or None when they all agree. */
  function CompareFrom(oldData: seq<RawRecord>, newData: seq<RawRecord>, i: nat): Option<string>
    requires |oldData| == |newData| && i <= |newData|
    decreases |newData| - i
  {
    if i == |newData| then None
    else if oldData[i].auctionQuantity != newData[i].auctionQuantity then Some(QUANTITY_UPDATED)
    else match FirstGradeChange(oldData[i], newData[i], GradeOrder)
      case Some(g) => Some(PriceUpdated(g))
      case None => CompareFrom(oldData, newData, i + 1)
  }

  /** `analyzeDataChanges`. */
  function Analyze(oldData: seq<RawRecord>, newData: seq<RawRecord>): ChangeSummary {
    if |oldData| == 0 then ChangeSummary(true, NEW_DATA)
    else if |oldData| != |newData| then ChangeSummary(true, CountChanged(|oldData|, |newData|))
    else match CompareFrom(oldData, newData, 0)
      case Some(s) => ChangeSummary(true, s)
      case None => ChangeSummary(false, NO_CHANGES)
  }

  /** Two records agree on everything the comparison looks at: quantities and every grade. */
  predicate SameCore(a: RawRecord, b: RawRecord) {
    a.auctionQuantity == b.auctionQuantity && forall g: Grade :: a.grades.At(g) == b.grades.At(g)
  }

  lemma AllGradesListed(g: Grade)
    ensures g in GradeOrder
  {
    assert GradeOrder[GradePosition(g)] == g;
  }

  lemma {:induction false} CompareFromNone(oldData: seq<RawRecord>, newData: seq<RawRecord>, i: nat)
    requires |oldData| == |newData| && i <= |newData|
    ensures CompareFrom(oldData, newData, i).None? <==> forall k :: i <= k < |newData| ==> SameCore(oldData[k], newData[k])
    decreases |newData| - i
  {
    if i < |newData| {
      CompareFromNone(oldData, newData, i + 1);
      if FirstGradeChange(oldData[i], newData[i], GradeOrder).None? {
        forall g: Grade ensures oldData[i].grades.At(g) == newData[i].grades.At(g) {
          AllGradesListed(g);
        }
      }
    }
  }

  /**
   * No change is reported exactly when there are stored records, as many
   * as scraped, and each pair agrees in quantities and grades.
   */
  lemma AnalyzeNoChangeIff(oldData: seq<RawRecord>, newData: seq<RawRecord>)
    ensures !Analyze(oldData, newData).hasChanges <==>
      |oldData| > 0 && |oldData| == |newData| && forall k :: 0 <= k < |newData| ==> SameCore(oldData[k], newData[k])
  {
    if |oldData| > 0 && |oldData| == |newData| {
      CompareFromNone(oldData, newData, 0);
    }
  }

  /** Agreeing pairs are skipped: the verdict from `i` is the verdict from the first disagreeing index `k`. */
  lemma {:induction false} CompareFromSkips(oldData: seq<RawRecord>, newData: seq<RawRecord>, i: nat, k: nat)
    requires |oldData| == |newData| && i <= k <= |newData|
    requires forall j :: i <= j < k ==> SameCore(oldData[j], newData[j])
    ensures CompareFrom(oldData, newData, i) == CompareFrom(oldData, newData, k)
    decreases k - i
  {
    if i < k {
      assert SameCore(oldData[i], newData[i]);
      assert FirstGradeChange(oldData[i], newData[i], GradeOrder).None?;
      CompareFromSkips(oldData, newData, i + 1, k);
    }
  }

  /**
   * With as many stored as scraped records, the summary names the first
   * disagreeing pair: the quantities when they differ, else its first
   * differing grade in the fixed grade order.
   */
  lemma AnalyzeReportsFirstDifference(oldData: seq<RawRecord>, newData: seq<RawRecord>, k: nat)
    requires |oldData| > 0 && |oldData| == |newData| && k < |newData|
    requires !SameCore(oldData[k], newData[k])
    requires forall j :: 0 <= j < k ==> SameCore(oldData[j], newData[j])
    ensures Analyze(oldData, newData).hasChanges
    ensures oldData[k].auctionQuantity != newData[k].auctionQuantity ==> Analyze(oldData, newData).summary == QUANTITY_UPDATED
    ensures oldData[k].auctionQuantity == newData[k].auctionQuantity ==>
      FirstGradeChange(oldData[k], newData[k], GradeOrder).Some? &&
      Analyze(oldData, newData).summary == PriceUpdated(FirstGradeChange(oldData[k], newData[k], GradeOrder).value)
  {
    CompareFromSkips(oldData, newData, 0, k);
    if oldData[k].auctionQuantity == newData[k].auctionQuantity && FirstGradeChange(oldData[k], newData[k], GradeOrder).None? {
      forall g: Grade ensures oldData[k].grades.At(g) == newData[k].grades.At(g) {
        AllGradesListed(g);
      }
      assert false;
    }
  }

  /** A day compared with itself is unchanged, unless it was empty. */
  lemma AnalyzeSelf(data: seq<RawRecord>)
    ensures Analyze(data, data).hasChanges <==> |data| == 0
  {
    AnalyzeNoChangeIff(data, data);
  }

  /** The amounts, region, union and dates are not compared: a change there alone goes unreported. */
  lemma AmountOnlyChangeUnreported(oldData: seq<RawRecord>, newData: seq<RawRecord>)
    requires |oldData| > 0 && |oldData| == |newData|
    requires forall k :: 0 <= k < |newData| ==>
      newData[k].auctionQuantity == oldData[k].auctionQuantity && newData[k].grades == oldData[k].grades
    ensures !Analyze(oldData, newData).hasChanges
  {
    AnalyzeNoChangeIff(oldData, newData);
  }

  /** The inner loop over the price fields. */
  method FirstChangedGrade(oldItem: RawRecord, newItem: RawRecord) returns (changed: Option<Grade>)
    ensures changed == FirstGradeChange(oldItem, newItem, GradeOrder)
  {
    var priceFields := GradeOrder;
    for k := 0 to |priceFields|
      invariant FirstGradeChange(oldItem, newItem, priceFields) == FirstGradeChange(oldItem, newItem, priceFields[k..])
    {
      assert priceFields[k..][1..] == priceFields[k + 1..];
      var field := priceFields[k];
      if oldItem.grades.At(field) != newItem.grades.At(field) {
        return Some(field);
      }
    }
    return None;
  }

  /** `analyzeDataChanges`, with its early returns. */
  method AnalyzeDataChanges(oldData: seq<RawRecord>, newData: seq<RawRecord>) returns (result: ChangeSummary)
    ensures result == Analyze(oldData, newData)
    ensures !result.hasChanges <==>
      |oldData| > 0 && |oldData| == |newData| && forall k :: 0 <= k < |newData| ==> SameCore(oldData[k], newData[k])
  {
    AnalyzeNoChangeIff(oldData, newData);
    if |oldData| == 0 {
      return ChangeSummary(true, NEW_DATA);
    }
    if |oldData| != |newData| {
      return ChangeSummary(true, CountChanged(|oldData|, |newData|));
    }
    for i := 0 to |newData|
      invariant CompareFrom(oldData, newData, 0) == CompareFrom(oldData, newData, i)
    {
      var oldItem := oldData[i];
      var newItem := newData[i];
      if oldItem.auctionQuantity != newItem.auctionQuantity {
        return ChangeSummary(true, QUANTITY_UPDATED);
      }
      var changed := FirstChangedGrade(oldItem, newItem);
      if changed.Some? {
        return ChangeSummary(true, PriceUpdated(changed.value));
      }
    }
    return ChangeSummary(false, NO_CHANGES);
  }
}
