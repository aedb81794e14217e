/**
 * The statistics script scripts/generate-stats.ts. One pass over the day
 * files tracks the latest day seen and, per year and union, a snapshot of
 * that union's cumulative totals; the yearly manifest sums the snapshots,
 * and the daily summary sums the latest day's file.
 */
module GenerateStats {
  import opened Wrappers
  import opened Strings
  import opened Dates
  import opened Sorting
  import opened Assoc
  import opened Grouping
  import opened Numbers
  import opened Records

  // ---------------------------------------------------------------
  // Latest date
  // ---------------------------------------------------------------

  /**
   * A day as the scan reads it from the directory names. The year and month
   * directories are digit names; the day is `parseInt` of the file name and
   * is None (NaN) when the name does not start with a digit.
   */
  datatype DayParts = DayParts(year: nat, month: nat, day: Option<nat>)

  /** The comparison of `updateLatestDate`; a NaN day is never greater nor smaller. */
  predicate Later(a: DayParts, b: DayParts) {
    || a.year > b.year
    || (a.year == b.year
        && (a.month > b.month
            || (a.month == b.month && a.day.Some? && b.day.Some? && a.day.value > b.day.value)))
  }

  /** `n.toString()`, with NaN for a missing number. */
  function NumberText(n: Option<nat>): string {
    match n
    case Some(v) => NatToString(v)
    case None => "NaN"
  }

  /** `${y.padStart(4, "0")}-${m.padStart(2, "0")}-${d.padStart(2, "0")}`. */
  function Label(p: DayParts): string {
    PadStart(NatToString(p.year), 4, '0') + "-" + PadStart(NatToString(p.month), 2, '0') + "-" + PadStart(NumberText(p.day), 2, '0')
  }

  function LabelOf(p: Option<DayParts>): Option<string> {
    match p
    case Some(v) => Some(Label(v))
    case None => None
  }

  /** The tracked day after `updateLatestDate(p)`. */
  function NextLatest(current: Option<DayParts>, p: DayParts): (r: DayParts)
    ensures r == p || (current.Some? && r == current.value)
    ensures current.None? ==> r == p
  {
    if current.None? || Later(p, current.value) then p else current.value
  }

  /** The tracked day after a run of updates. */
  function LatestOf(current: Option<DayParts>, days: seq<DayParts>): (r: Option<DayParts>)
    ensures r.None? <==> current.None? && |days| == 0
  {
    if |days| == 0 then current else Some(NextLatest(LatestOf(current, days[..|days| - 1]), days[|days| - 1]))
  }

  lemma NotLaterStep(x: DayParts, cur: DayParts, p: DayParts)
    requires !Later(x, cur) && Later(p, cur)
    ensures !Later(x, p)
  {
  }

  /**
   * After scanning `days` from nothing, the tracked day is one of them and
   * none of them is later, even when some day is NaN.
   */
  lemma {:induction false} LatestOfIsLatest(days: seq<DayParts>)
    requires |days| > 0
    ensures LatestOf(None, days).value in days
    ensures forall i :: 0 <= i < |days| ==> !Later(days[i], LatestOf(None, days).value)
  {
    var pre := days[..|days| - 1];
    var p := days[|days| - 1];
    if |pre| == 0 {
      assert days == [p];
    } else {
      LatestOfIsLatest(pre);
      var cur := LatestOf(None, pre).value;
      var r := LatestOf(None, days).value;
      assert r == NextLatest(Some(cur), p);
      forall i | 0 <= i < |days| ensures !Later(days[i], r) {
        if i < |pre| {
          assert days[i] == pre[i];
          if Later(p, cur) {
            NotLaterStep(days[i], cur, p);
          }
        }
      }
    }
  }

  /** With numeric days, the tracked day is the lexicographic maximum. */
  lemma LatestOfIsMaximum(days: seq<DayParts>, i: nat)
    requires |days| > 0 && i < |days|
    requires forall k :: 0 <= k < |days| ==> days[k].day.Some?
    ensures LatestOf(None, days).Some?
    ensures var top := LatestOf(None, days).value;
      top.day.Some? && (days[i] == top || Before(Date(days[i].year, days[i].month, days[i].day.value), Date(top.year, top.month, top.day.value)))
  {
    LatestOfIsLatest(days);
  }

  /** A day that does not parse, once tracked, hides every later day of the same month. */
  lemma NaNDayShadows(y: nat, m: nat, d: nat)
    ensures LatestOf(None, [DayParts(y, m, None), DayParts(y, m, Some(d))]) == Some(DayParts(y, m, None))
  {
    assert [DayParts(y, m, None), DayParts(y, m, Some(d))][..1] == [DayParts(y, m, None)];
  }

  // ---------------------------------------------------------------
  // Per-year, per-union snapshots
  // ---------------------------------------------------------------

  datatype UnionSnapshot = UnionSnapshot(quantityTotal: real, amountTotal: real, region: string, union: string)

  function QuantityTotal(rec: RawRecord): real {
    ParseNumber(Some(rec.auctionQuantity.total))
  }

  function AmountTotal(rec: RawRecord): real {
    ParseNumber(Some(rec.auctionAmount.total))
  }

  /** The replacement rule: no snapshot yet, or either total is larger. */
  predicate Replaces(existing: Option<UnionSnapshot>, q: real, a: real) {
    existing.None? || q > existing.value.quantityTotal || a > existing.value.amountTotal
  }

  /** One record offered to a year's map of union snapshots. */
  function ConsiderRecord(yearMap: Dict<string, UnionSnapshot>, rec: RawRecord): Dict<string, UnionSnapshot> {
    var q := QuantityTotal(rec);
    var a := AmountTotal(rec);
    if Replaces(Get(yearMap, rec.union), q, a) then Put(yearMap, rec.union, UnionSnapshot(q, a, rec.region, rec.union))
    else yearMap
  }

  function ConsiderAll(yearMap: Dict<string, UnionSnapshot>, recs: seq<RawRecord>): Dict<string, UnionSnapshot> {
    if |recs| == 0 then yearMap else ConsiderRecord(ConsiderAll(yearMap, recs[..|recs| - 1]), recs[|recs| - 1])
  }

  /** Every snapshot is filed under its own union. */
  predicate WellKeyed(yearMap: Dict<string, UnionSnapshot>) {
    forall i :: 0 <= i < |yearMap| ==> yearMap[i].1.union == yearMap[i].0
  }

  lemma ConsiderRecordKeeps(yearMap: Dict<string, UnionSnapshot>, rec: RawRecord)
    requires WellKeyed(yearMap) && UniqueKeys(yearMap)
    ensures WellKeyed(ConsiderRecord(yearMap, rec)) && UniqueKeys(ConsiderRecord(yearMap, rec))
  {
    var s := UnionSnapshot(QuantityTotal(rec), AmountTotal(rec), rec.region, rec.union);
    PutElements(yearMap, rec.union, s);
    PutUnique(yearMap, rec.union, s);
    var r := Put(yearMap, rec.union, s);
    forall i | 0 <= i < |r| ensures r[i].1.union == r[i].0 {
      assert r[i] in r;
      if r[i] != (rec.union, s) {
        assert r[i] in yearMap;
        var j :| 0 <= j < |yearMap| && yearMap[j] == r[i];
      }
    }
  }

  /** The scan keeps each year's map keyed by union, each union once. */
  lemma {:induction false} ConsiderAllKeeps(yearMap: Dict<string, UnionSnapshot>, recs: seq<RawRecord>)
    requires WellKeyed(yearMap) && UniqueKeys(yearMap)
    ensures WellKeyed(ConsiderAll(yearMap, recs)) && UniqueKeys(ConsiderAll(yearMap, recs))
  {
    if |recs| > 0 {
      ConsiderAllKeeps(yearMap, recs[..|recs| - 1]);
      ConsiderRecordKeeps(ConsiderAll(yearMap, recs[..|recs| - 1]), recs[|recs| - 1]);
    }
  }

  /** Right after a record is offered, its union's snapshot is at least as large in both totals. */
  lemma ConsiderRecordDominates(yearMap: Dict<string, UnionSnapshot>, rec: RawRecord)
    ensures Get(ConsiderRecord(yearMap, rec), rec.union).Some?
    ensures Get(ConsiderRecord(yearMap, rec), rec.union).value.quantityTotal >= QuantityTotal(rec)
    ensures Get(ConsiderRecord(yearMap, rec), rec.union).value.amountTotal >= AmountTotal(rec)
  {
    PutGet(yearMap, rec.union, UnionSnapshot(QuantityTotal(rec), AmountTotal(rec), rec.region, rec.union), rec.union);
  }

  /**
   * The rule is not a maximum: a larger amount with a smaller quantity
   * replaces the snapshot, and the union's quantity goes down.
   */
  lemma OrRuleCanLowerQuantity(yearMap: Dict<string, UnionSnapshot>, rec: RawRecord)
    requires Get(yearMap, rec.union).Some?
    requires AmountTotal(rec) > Get(yearMap, rec.union).value.amountTotal
    requires QuantityTotal(rec) < Get(yearMap, rec.union).value.quantityTotal
    ensures Get(ConsiderRecord(yearMap, rec), rec.union).Some?
    ensures Get(ConsiderRecord(yearMap, rec), rec.union).value.quantityTotal < Get(yearMap, rec.union).value.quantityTotal
  {
    PutGet(yearMap, rec.union, UnionSnapshot(QuantityTotal(rec), AmountTotal(rec), rec.region, rec.union), rec.union);
  }

  /** The last record of a union in `recs`. */
  function LastOfUnion(recs: seq<RawRecord>, union: string): (r: Option<RawRecord>)
    ensures r.Some? ==> r.value in recs && r.value.union == union
  {
    if |recs| == 0 then None
    else if recs[|recs| - 1].union == union then Some(recs[|recs| - 1])
    else LastOfUnion(recs[..|recs| - 1], union)
  }

  /** Within a union, later records never report smaller cumulative totals. */
  predicate Cumulative(recs: seq<RawRecord>) {
    forall i, j :: 0 <= i < j < |recs| && recs[i].union == recs[j].union ==>
      QuantityTotal(recs[i]) <= QuantityTotal(recs[j]) && AmountTotal(recs[i]) <= AmountTotal(recs[j])
  }

  lemma CumulativePrefix(recs: seq<RawRecord>)
    requires |recs| > 0 && Cumulative(recs)
    ensures Cumulative(recs[..|recs| - 1])
  {
    var pre := recs[..|recs| - 1];
    forall i, j | 0 <= i < j < |pre| && pre[i].union == pre[j].union
      ensures QuantityTotal(pre[i]) <= QuantityTotal(pre[j]) && AmountTotal(pre[i]) <= AmountTotal(pre[j])
    {
      assert pre[i] == recs[i] && pre[j] == recs[j];
    }
  }

  /** One instance of `Cumulative`. */
  lemma CumulativeAt(recs: seq<RawRecord>, i: nat, j: nat)
    requires Cumulative(recs) && i < j < |recs| && recs[i].union == recs[j].union
    ensures QuantityTotal(recs[i]) <= QuantityTotal(recs[j]) && AmountTotal(recs[i]) <= AmountTotal(recs[j])
  {
  }

  /** Offering a record changes at most its own union's snapshot. */
  lemma ConsiderRecordGet(yearMap: Dict<string, UnionSnapshot>, rec: RawRecord, union: string)
    ensures Get(ConsiderRecord(yearMap, rec), union) ==
      if rec.union == union && Replaces(Get(yearMap, union), QuantityTotal(rec), AmountTotal(rec))
      then Some(UnionSnapshot(QuantityTotal(rec), AmountTotal(rec), rec.region, rec.union))
      else Get(yearMap, union)
  {
    PutGet(yearMap, rec.union, UnionSnapshot(QuantityTotal(rec), AmountTotal(rec), rec.region, rec.union), union);
  }

  /** On cumulative totals, each union's snapshot carries the totals of its latest record. */
  lemma {:induction false} CumulativeKeepsLatest(recs: seq<RawRecord>, union: string)
    requires Cumulative(recs)
    ensures Get(ConsiderAll([], recs), union).Some? <==> LastOfUnion(recs, union).Some?
    ensures Get(ConsiderAll([], recs), union).Some? ==>
      Get(ConsiderAll([], recs), union).value.quantityTotal == QuantityTotal(LastOfUnion(recs, union).value)
      && Get(ConsiderAll([], recs), union).value.amountTotal == AmountTotal(LastOfUnion(recs, union).value)
  {
    if |recs| > 0 {
      var pre := recs[..|recs| - 1];
      var rec := recs[|recs| - 1];
      var m := ConsiderAll([], pre);
      CumulativePrefix(recs);
      CumulativeKeepsLatest(pre, union);
      ConsiderRecordGet(m, rec, union);
      if rec.union == union && Get(m, union).Some? {
        var prev := LastOfUnion(pre, union).value;
        var i :| 0 <= i < |pre| && pre[i] == prev;
        assert recs[i] == prev && prev.union == union;
        CumulativeAt(recs, i, |recs| - 1);
      }
    }
  }

  // ---------------------------------------------------------------
  // The scan
  // ---------------------------------------------------------------

  /** The loop over one file's records with the replacement rule. */
  method ConsiderRecords(yearMap0: Dict<string, UnionSnapshot>, raws: seq<RawRecord>) returns (yearMap: Dict<string, UnionSnapshot>)
    ensures yearMap == ConsiderAll(yearMap0, raws)
  {
    yearMap := yearMap0;
    for k := 0 to |raws|
      invariant yearMap == ConsiderAll(yearMap0, raws[..k])
    {
      assert raws[..k + 1][..k] == raws[..k];
      var rec := raws[k];
      var q := QuantityTotal(rec);
      var a := AmountTotal(rec);
      var existing := Get(yearMap, rec.union);
      if existing.None? || q > existing.value.quantityTotal || a > existing.value.amountTotal {
        yearMap := Put(yearMap, rec.union, UnionSnapshot(q, a, rec.region, rec.union));
      }
    }
    assert raws[..|raws|] == raws;
  }

  /** A listed day file: directory names, file name, and the parsed contents (None when unreadable). */
  datatype DayFile = DayFile(year: string, month: string, dayFile: string, contents: Option<seq<RawRecord>>)

  /** The names `listYears` and `listMonths` let through. */
  predicate ListedNames(f: DayFile) {
    |f.year| == 4 && AllDigits(f.year) && 1 <= |f.month| <= 2 && AllDigits(f.month)
  }

  /** `parseInt` of a name known to start with a digit. */
  function DigitNumber(s: string): nat
    requires |s| > 0 && IsDigit(s[0])
  {
    ParseInt(s).value
  }

  /** The day a file stands for: `parseInt(dayFile.replace(".json", ""), 10)`. */
  function PartsOf(f: DayFile): DayParts
    requires ListedNames(f)
  {
    var dayName := RemoveFirst(f.dayFile, ".json");
    DayParts(DigitNumber(f.year), DigitNumber(f.month), ParseInt(dayName))
  }

  /** `yearUnionMax` after one day file: its year's map, created on first success, takes every record. */
  function ScanStep(yearUnionMax: Dict<string, Dict<string, UnionSnapshot>>, f: DayFile): Dict<string, Dict<string, UnionSnapshot>> {
    match f.contents
    case None => yearUnionMax
    case Some(raws) => Put(yearUnionMax, f.year, ConsiderAll(Get(yearUnionMax, f.year).GetOr([]), raws))
  }

  function ScanAll(yearUnionMax: Dict<string, Dict<string, UnionSnapshot>>, files: seq<DayFile>): Dict<string, Dict<string, UnionSnapshot>> {
    if |files| == 0 then yearUnionMax else ScanStep(ScanAll(yearUnionMax, files[..|files| - 1]), files[|files| - 1])
  }

  function DaysOf(files: seq<DayFile>): (ds: seq<DayParts>)
    requires forall i :: 0 <= i < |files| ==> ListedNames(files[i])
    ensures |ds| == |files|
    ensures forall i :: 0 <= i < |files| ==> ds[i] == PartsOf(files[i])
  {
    if |files| == 0 then [] else DaysOf(files[..|files| - 1]) + [PartsOf(files[|files| - 1])]
  }

  /** Every year map is keyed by union, each union once. */
  predicate AllWellKeyed(yearUnionMax: Dict<string, Dict<string, UnionSnapshot>>) {
    forall i :: 0 <= i < |yearUnionMax| ==> WellKeyed(yearUnionMax[i].1) && UniqueKeys(yearUnionMax[i].1)
  }

  lemma ScanStepKeeps(yearUnionMax: Dict<string, Dict<string, UnionSnapshot>>, f: DayFile)
    requires AllWellKeyed(yearUnionMax) && UniqueKeys(yearUnionMax)
    ensures AllWellKeyed(ScanStep(yearUnionMax, f)) && UniqueKeys(ScanStep(yearUnionMax, f))
  {
    if f.contents.Some? {
      var prior := Get(yearUnionMax, f.year).GetOr([]);
      if Get(yearUnionMax, f.year).Some? {
        var i :| 0 <= i < |yearUnionMax| && yearUnionMax[i] == (f.year, prior);
      }
      var m := ConsiderAll(prior, f.contents.value);
      ConsiderAllKeeps(prior, f.contents.value);
      PutElements(yearUnionMax, f.year, m);
      PutUnique(yearUnionMax, f.year, m);
      forall i | 0 <= i < |ScanStep(yearUnionMax, f)|
        ensures WellKeyed(ScanStep(yearUnionMax, f)[i].1) && UniqueKeys(ScanStep(yearUnionMax, f)[i].1)
      {
        var e := ScanStep(yearUnionMax, f)[i];
        assert e in yearUnionMax || e == (f.year, m);
      }
    }
  }

  /** One more listed file is one more update of the tracked day. */
  lemma LatestPrefix(parts: Option<DayParts>, files: seq<DayFile>, i: nat)
    requires i < |files| && forall j :: 0 <= j < |files| ==> ListedNames(files[j])
    ensures LatestOf(parts, DaysOf(files[..i + 1])) == Some(NextLatest(LatestOf(parts, DaysOf(files[..i])), PartsOf(files[i])))
  {
    var next := files[..i + 1];
    assert next[..i] == files[..i];
    var ds := DaysOf(next);
    assert ds == DaysOf(files[..i]) + [PartsOf(files[i])];
    assert ds[..i] == DaysOf(files[..i]);
  }

  /** One more listed file is one more `ScanStep`. */
  lemma ScanAllPrefix(yearUnionMax: Dict<string, Dict<string, UnionSnapshot>>, files: seq<DayFile>, i: nat)
    requires i < |files|
    ensures ScanAll(yearUnionMax, files[..i + 1]) == ScanStep(ScanAll(yearUnionMax, files[..i]), files[i])
  {
    assert files[..i + 1][..i] == files[..i];
  }

  /**
   * The scan's state: the latest day and its label, and the per-year union
   * snapshots. The script keeps these as module-level variables.
   */
  class StatsScan {
    var latestDateParts: Option<DayParts>
    var latestDateStr: Option<string>
    var yearUnionMax: Dict<string, Dict<string, UnionSnapshot>>

    /** The label always spells the tracked day; every year map is keyed by union. */
    ghost predicate Valid()
      reads this
    {
      && latestDateStr == LabelOf(latestDateParts)
      && AllWellKeyed(yearUnionMax) && UniqueKeys(yearUnionMax)
    }

    constructor ()
      ensures Valid()
      ensures latestDateParts == None && latestDateStr == None && yearUnionMax == []
    {
      latestDateParts := None;
      latestDateStr := None;
      yearUnionMax := [];
    }

    /** `updateLatestDate(y, m, d)`. */
    method UpdateLatestDate(p: DayParts)
      requires Valid()
      modifies this
      ensures Valid()
      ensures latestDateParts == Some(NextLatest(old(latestDateParts), p))
      ensures yearUnionMax == old(yearUnionMax)
    {
      if latestDateParts.None? {
        latestDateParts := Some(p);
        latestDateStr := Some(Label(p));
        return;
      }
      var current := latestDateParts.value;
      if Later(p, current) {
        latestDateParts := Some(p);
        latestDateStr := Some(Label(p));
      }
    }

    /** One day file: the day is tracked even when the file then fails to parse. */
    method ScanDayFile(f: DayFile)
      requires Valid() && ListedNames(f)
      modifies this
      ensures Valid()
      ensures latestDateParts == Some(NextLatest(old(latestDateParts), PartsOf(f)))
      ensures yearUnionMax == ScanStep(old(yearUnionMax), f)
    {
      UpdateLatestDate(PartsOf(f));
      if f.contents.None? {
        return;
      }
      var yearMap := ConsiderRecords(Get(yearUnionMax, f.year).GetOr([]), f.contents.value);
      ScanStepKeeps(yearUnionMax, f);
      yearUnionMax := Put(yearUnionMax, f.year, yearMap);
    }

    /** The scan over every listed day file in order. */
    method Scan(files: seq<DayFile>)
      requires Valid() && forall i :: 0 <= i < |files| ==> ListedNames(files[i])
      modifies this
      ensures Valid()
      ensures latestDateParts == LatestOf(old(latestDateParts), DaysOf(files))
      ensures yearUnionMax == ScanAll(old(yearUnionMax), files)
    {
      ghost var startParts := latestDateParts;
      ghost var startMax := yearUnionMax;
      var i := 0;
      while i < |files|
        invariant 0 <= i <= |files|
        invariant Valid()
        invariant latestDateParts == LatestOf(startParts, DaysOf(files[..i]))
        invariant yearUnionMax == ScanAll(startMax, files[..i])
      {
        LatestPrefix(startParts, files, i);
        ScanAllPrefix(startMax, files, i);
        ScanDayFile(files[i]);
        i := i + 1;
      }
      assert files[..|files|] == files;
    }
  }

  // ---------------------------------------------------------------
  // Yearly aggregation
  // ---------------------------------------------------------------

  datatype YearlyAggregation = YearlyAggregation(
    totalQuantityKg: real, totalAmountWon: real,
    regionTotals: Dict<string, real>, unionTotals: Dict<string, real>)

  /** One snapshot added to a year's totals. */
  function AggStep(agg: YearlyAggregation, u: UnionSnapshot): YearlyAggregation {
    YearlyAggregation(
      agg.totalQuantityKg + u.quantityTotal,
      agg.totalAmountWon + u.amountTotal,
      Accumulate(agg.regionTotals, u.region, u.quantityTotal),
      Accumulate(agg.unionTotals, u.union, u.quantityTotal))
  }

  function Aggregate(unions: seq<UnionSnapshot>): YearlyAggregation {
    if |unions| == 0 then YearlyAggregation(0.0, 0.0, [], [])
    else AggStep(Aggregate(unions[..|unions| - 1]), unions[|unions| - 1])
  }

  function SumQuantity(unions: seq<UnionSnapshot>): real {
    if |unions| == 0 then 0.0 else SumQuantity(unions[..|unions| - 1]) + unions[|unions| - 1].quantityTotal
  }

  function SumAmount(unions: seq<UnionSnapshot>): real {
    if |unions| == 0 then 0.0 else SumAmount(unions[..|unions| - 1]) + unions[|unions| - 1].amountTotal
  }

  /**
   * The year's totals are the sums over its snapshots, and the per-region
   * and per-union breakdowns each add up to the total quantity.
   */
  lemma {:induction false} AggregateTotals(unions: seq<UnionSnapshot>)
    ensures Aggregate(unions).totalQuantityKg == SumQuantity(unions)
    ensures Aggregate(unions).totalAmountWon == SumAmount(unions)
    ensures Sum(Aggregate(unions).regionTotals) == SumQuantity(unions)
    ensures Sum(Aggregate(unions).unionTotals) == SumQuantity(unions)
  {
    if |unions| > 0 {
      var pre := Aggregate(unions[..|unions| - 1]);
      var u := unions[|unions| - 1];
      AggregateTotals(unions[..|unions| - 1]);
      AccumulateSum(pre.regionTotals, u.region, u.quantityTotal);
      AccumulateSum(pre.unionTotals, u.union, u.quantityTotal);
    }
  }

  /** The `forEach` over one year's snapshots. */
  method AggregateYear(unions: seq<UnionSnapshot>) returns (agg: YearlyAggregation)
    ensures agg == Aggregate(unions)
    ensures agg.totalQuantityKg == SumQuantity(unions) == Sum(agg.unionTotals) == Sum(agg.regionTotals)
  {
    agg := YearlyAggregation(0.0, 0.0, [], []);
    for k := 0 to |unions|
      invariant agg == Aggregate(unions[..k])
    {
      assert unions[..k + 1][..k] == unions[..k];
      var u := unions[k];
      agg := YearlyAggregation(
        agg.totalQuantityKg + u.quantityTotal,
        agg.totalAmountWon + u.amountTotal,
        Accumulate(agg.regionTotals, u.region, u.quantityTotal),
        Accumulate(agg.unionTotals, u.union, u.quantityTotal));
    }
    assert unions[..|unions|] == unions;
    AggregateTotals(unions);
  }

  /** `yearlyAgg` after the loop over `Object.keys(yearUnionMax)`. */
  function YearlyOf(yearUnionMax: Dict<string, Dict<string, UnionSnapshot>>): Dict<string, YearlyAggregation> {
    if |yearUnionMax| == 0 then []
    else
      var last := yearUnionMax[|yearUnionMax| - 1];
      Put(YearlyOf(yearUnionMax[..|yearUnionMax| - 1]), last.0, Aggregate(Values(last.1)))
  }

  lemma {:induction false} YearlyOfKeys(yearUnionMax: Dict<string, Dict<string, UnionSnapshot>>)
    ensures Keys(YearlyOf(yearUnionMax)) == Distinct(Keys(yearUnionMax))
  {
    if |yearUnionMax| > 0 {
      var pre := yearUnionMax[..|yearUnionMax| - 1];
      var last := yearUnionMax[|yearUnionMax| - 1];
      YearlyOfKeys(pre);
      PutKeys(YearlyOf(pre), last.0, Aggregate(Values(last.1)));
      assert Keys(yearUnionMax)[..|yearUnionMax| - 1] == Keys(pre);
    }
  }

  /** Each year's aggregation is built from exactly that year's snapshots. */
  lemma {:induction false} YearlyOfGet(yearUnionMax: Dict<string, Dict<string, UnionSnapshot>>, year: string)
    requires UniqueKeys(yearUnionMax)
    ensures Get(YearlyOf(yearUnionMax), year) ==
      match Get(yearUnionMax, year) case Some(m) => Some(Aggregate(Values(m))) case None => None
  {
    if |yearUnionMax| > 0 {
      var pre := yearUnionMax[..|yearUnionMax| - 1];
      var last := yearUnionMax[|yearUnionMax| - 1];
      assert UniqueKeys(pre) by {
        forall i, j | 0 <= i < j < |pre| ensures pre[i].0 != pre[j].0 {
          assert pre[i] == yearUnionMax[i] && pre[j] == yearUnionMax[j];
        }
      }
      YearlyOfGet(pre, year);
      PutGet(YearlyOf(pre), last.0, Aggregate(Values(last.1)), year);
      assert yearUnionMax == pre + [last];
      GetAppend(pre, last.0, last.1, year);
      assert last.0 !in Keys(pre) by {
        forall i | 0 <= i < |pre| ensures Keys(pre)[i] != last.0 {
          assert pre[i] == yearUnionMax[i];
        }
      }
    }
  }

  method BuildYearly(yearUnionMax: Dict<string, Dict<string, UnionSnapshot>>) returns (yearlyAgg: Dict<string, YearlyAggregation>)
    ensures yearlyAgg == YearlyOf(yearUnionMax)
  {
    yearlyAgg := [];
    for k := 0 to |yearUnionMax|
      invariant yearlyAgg == YearlyOf(yearUnionMax[..k])
    {
      var next := yearUnionMax[..k + 1];
      assert next[..k] == yearUnionMax[..k] && next[k] == yearUnionMax[k];
      var agg := AggregateYear(Values(yearUnionMax[k].1));
      yearlyAgg := Put(yearlyAgg, yearUnionMax[k].0, agg);
    }
    assert yearUnionMax[..|yearUnionMax|] == yearUnionMax;
  }

  // ---------------------------------------------------------------
  // pickTop
  // ---------------------------------------------------------------

  datatype KeyValue = KeyValue(key: string, value: real)

  /** The first entry with the largest value, as the strict `v > topVal` scan finds it. */
  function Top(obj: Dict<string, real>): (r: Option<KeyValue>)
    ensures r.Some? <==> |obj| > 0
  {
    if |obj| == 0 then None
    else
      var t := Top(obj[..|obj| - 1]);
      var e := obj[|obj| - 1];
      if t.None? || e.1 > t.value.value then Some(KeyValue(e.0, e.1)) else t
  }

  /** The top entry is an entry, no value exceeds it, and every entry before it is strictly smaller. */
  lemma {:induction false} TopIsFirstMaximum(obj: Dict<string, real>) returns (j: nat)
    requires |obj| > 0
    ensures j < |obj| && obj[j] == (Top(obj).value.key, Top(obj).value.value)
    ensures forall i :: 0 <= i < |obj| ==> obj[i].1 <= Top(obj).value.value
    ensures forall i :: 0 <= i < j ==> obj[i].1 < Top(obj).value.value
  {
    var pre := obj[..|obj| - 1];
    var e := obj[|obj| - 1];
    if |pre| == 0 {
      j := 0;
    } else {
      var jp := TopIsFirstMaximum(pre);
      var t := Top(pre).value;
      if e.1 > t.value {
        j := |obj| - 1;
        forall i | 0 <= i < |obj| ensures obj[i].1 <= e.1 {
          if i < |pre| {
            assert obj[i] == pre[i];
          }
        }
      } else {
        j := jp;
        forall i | 0 <= i < |obj| ensures obj[i].1 <= t.value {
          if i < |pre| {
            assert obj[i] == pre[i];
          }
        }
        forall i | 0 <= i < j ensures obj[i].1 < t.value {
          assert obj[i] == pre[i];
        }
        assert obj[j] == pre[j];
      }
    }
  }

  /** `pickTop`: the top entry, or null when there is none or its key is the empty string. */
  function PickTop(obj: Dict<string, real>): (r: Option<KeyValue>)
    ensures r.Some? <==> |obj| > 0 && Top(obj).value.key != ""
    ensures r.Some? ==> r == Top(obj)
  {
    match Top(obj)
    case Some(t) => if t.key != "" then Some(t) else None
    case None => None
  }

  /** The loop of `pickTop`; None for `topVal` is -Infinity, None for `topKey` is null. */
  method PickTopScan(obj: Dict<string, real>) returns (top: Option<KeyValue>)
    ensures top == PickTop(obj)
  {
    var topKey: Option<string> := None;
    var topVal: Option<real> := None;
    for k := 0 to |obj|
      invariant topKey.Some? == topVal.Some?
      invariant topKey.Some? <==> k > 0
      invariant k > 0 ==> Top(obj[..k]) == Some(KeyValue(topKey.value, topVal.value))
    {
      assert obj[..k + 1][..k] == obj[..k];
      var (key, v) := obj[k];
      if topVal.None? || v > topVal.value {
        topVal := Some(v);
        topKey := Some(key);
      }
    }
    assert obj[..|obj|] == obj;
    if topKey.Some? && topKey.value != "" {
      top := Some(KeyValue(topKey.value, topVal.value));
    } else {
      top := None;
    }
  }

  // ---------------------------------------------------------------
  // Latest daily summary
  // ---------------------------------------------------------------

  /** `String(parseInt(s, 10))`. */
  function ReprintNumber(s: string): string {
    NumberText(ParseInt(s))
  }

  /**
   * The latest day's file, relative to the data root:
   * `Y/String(parseInt(M))/${parseInt(D)}.json` from `latestDateStr.split("-")`.
   */
  function LatestFilePath(latestDateStr: string): string {
    var parts := Split(latestDateStr, '-');
    var part := (i: nat) => if i < |parts| then parts[i] else "undefined";
    part(0) + "/" + ReprintNumber(part(1)) + "/" + ReprintNumber(part(2)) + ".json"
  }

  lemma PaddedNumber(n: nat, width: nat)
    ensures AllDigits(PadStart(NatToString(n), width, '0'))
    ensures '-' !in PadStart(NatToString(n), width, '0')
    ensures ReprintNumber(PadStart(NatToString(n), width, '0')) == NatToString(n)
  {
    PadStartDigits(NatToString(n), width);
    DigitsExclude(PadStart(NatToString(n), width, '0'), '-');
    ParseIntOfPadded(n, width);
  }

  /** The label of a numeric day leads back to the file that day was read from. */
  lemma LatestFileOfLabel(p: DayParts)
    requires p.day.Some? && p.year >= 1000
    ensures LatestFilePath(Label(p)) == NatToString(p.year) + "/" + NatToString(p.month) + "/" + NatToString(p.day.value) + ".json"
  {
    var y := PadStart(NatToString(p.year), 4, '0');
    var m := PadStart(NatToString(p.month), 2, '0');
    var d := PadStart(NatToString(p.day.value), 2, '0');
    PaddedNumber(p.year, 4);
    PaddedNumber(p.month, 2);
    PaddedNumber(p.day.value, 2);
    assert Label(p) == y + ['-'] + m + ['-'] + d;
    SplitThree(y, m, d, '-');
    assert Pow10(3) == 1000 by {
      assert Pow10(1) == 10 && Pow10(2) == 100;
    }
    NatToStringLengthAtLeast(p.year, 3);
  }

  datatype LatestDaily = LatestDaily(
    totalQuantityTodayKg: real,
    averageUnitPriceWonPerKg: real,
    topRegion: Option<KeyValue>,
    topUnion: Option<KeyValue>)

  function TodayQuantity(rec: RawRecord): real {
    ParseNumber(Some(rec.auctionQuantity.today))
  }

  /** `gradeQty * unitPrice` of one grade of one record. */
  function GradeProduct(rec: RawRecord, g: Grade): real {
    ParseNumber(Some(rec.grades.At(g).quantity)) * ParseNumber(Some(rec.grades.At(g).unitPrice))
  }

  /** `sum(gradeQty * unitPrice)` over the given grades of one record. */
  function GradeWeighted(rec: RawRecord, grades: seq<Grade>): real {
    if |grades| == 0 then 0.0
    else GradeWeighted(rec, grades[..|grades| - 1]) + GradeProduct(rec, grades[|grades| - 1])
  }

  /** The running state of the daily loop. */
  datatype DailyTotals = DailyTotals(regionTotals: Dict<string, real>, unionTotals: Dict<string, real>, totalTodayQty: real, weightedAmount: real)

  function DailyStep(t: DailyTotals, rec: RawRecord, grades: seq<Grade>): DailyTotals {
    var q := TodayQuantity(rec);
    DailyTotals(
      Accumulate(t.regionTotals, rec.region, q),
      Accumulate(t.unionTotals, rec.union, q),
      t.totalTodayQty + q,
      t.weightedAmount + GradeWeighted(rec, grades))
  }

  function DailyOf(raws: seq<RawRecord>, grades: seq<Grade>): DailyTotals {
    if |raws| == 0 then DailyTotals([], [], 0.0, 0.0) else DailyStep(DailyOf(raws[..|raws| - 1], grades), raws[|raws| - 1], grades)
  }

  function SumToday(raws: seq<RawRecord>): real {
    if |raws| == 0 then 0.0 else SumToday(raws[..|raws| - 1]) + TodayQuantity(raws[|raws| - 1])
  }

  function SumWeighted(raws: seq<RawRecord>, grades: seq<Grade>): real {
    if |raws| == 0 then 0.0 else SumWeighted(raws[..|raws| - 1], grades) + GradeWeighted(raws[|raws| - 1], grades)
  }

  /** The region and union breakdowns of today's quantity each add up to the day's total. */
  lemma {:induction false} DailyTotalsAddUp(raws: seq<RawRecord>, grades: seq<Grade>)
    ensures DailyOf(raws, grades).totalTodayQty == SumToday(raws)
    ensures DailyOf(raws, grades).weightedAmount == SumWeighted(raws, grades)
    ensures Sum(DailyOf(raws, grades).regionTotals) == SumToday(raws)
    ensures Sum(DailyOf(raws, grades).unionTotals) == SumToday(raws)
  {
    if |raws| > 0 {
      var pre := DailyOf(raws[..|raws| - 1], grades);
      var rec := raws[|raws| - 1];
      DailyTotalsAddUp(raws[..|raws| - 1], grades);
      AccumulateSum(pre.regionTotals, rec.region, TodayQuantity(rec));
      AccumulateSum(pre.unionTotals, rec.union, TodayQuantity(rec));
    }
  }

  /** The summary from the day's totals; `toFixed(2)` is not applied. */
  function SummaryOf(t: DailyTotals): (d: LatestDaily)
    ensures t.totalTodayQty > 0.0 ==> d.averageUnitPriceWonPerKg * t.totalTodayQty == t.weightedAmount
    ensures t.totalTodayQty <= 0.0 ==> d.averageUnitPriceWonPerKg == 0.0
    ensures d.totalQuantityTodayKg == t.totalTodayQty
    ensures d.topRegion == PickTop(t.regionTotals) && d.topUnion == PickTop(t.unionTotals)
  {
    LatestDaily(
      t.totalTodayQty,
      if t.totalTodayQty > 0.0 then t.weightedAmount / t.totalTodayQty else 0.0,
      PickTop(t.regionTotals),
      PickTop(t.unionTotals))
  }

  /** The inner loop over the grade keys: `weightedAmount += gradeQty * unitPrice`. */
  method WeightedAmountOf(rec: RawRecord, gradeKeys: seq<Grade>) returns (w: real)
    ensures w == GradeWeighted(rec, gradeKeys)
  {
    w := 0.0;
    for g := 0 to |gradeKeys|
      invariant w == GradeWeighted(rec, gradeKeys[..g])
    {
      assert gradeKeys[..g + 1][..g] == gradeKeys[..g];
      w := w + GradeProduct(rec, gradeKeys[g]);
    }
    assert gradeKeys[..|gradeKeys|] == gradeKeys;
  }

  /** One more record of the day is one more `DailyStep`. */
  lemma DailyOfPrefix(raws: seq<RawRecord>, k: nat, grades: seq<Grade>)
    requires k < |raws|
    ensures DailyOf(raws[..k + 1], grades) == DailyStep(DailyOf(raws[..k], grades), raws[k], grades)
  {
    assert raws[..k + 1][..k] == raws[..k];
  }

  /** The loop over the latest day's records. */
  method DailyTotalsOf(raw: seq<RawRecord>, gradeKeys: seq<Grade>) returns (t: DailyTotals)
    ensures t == DailyOf(raw, gradeKeys)
    ensures Sum(t.regionTotals) == t.totalTodayQty == Sum(t.unionTotals)
  {
    var regionTotals: Dict<string, real> := [];
    var unionTotals: Dict<string, real> := [];
    var totalTodayQty := 0.0;
    var weightedAmount := 0.0;
    for k := 0 to |raw|
      invariant regionTotals == DailyOf(raw[..k], gradeKeys).regionTotals
      invariant unionTotals == DailyOf(raw[..k], gradeKeys).unionTotals
      invariant totalTodayQty == DailyOf(raw[..k], gradeKeys).totalTodayQty
      invariant weightedAmount == DailyOf(raw[..k], gradeKeys).weightedAmount
    {
      DailyOfPrefix(raw, k, gradeKeys);
      var rec := raw[k];
      var todayQty := TodayQuantity(rec);
      regionTotals := Accumulate(regionTotals, rec.region, todayQty);
      unionTotals := Accumulate(unionTotals, rec.union, todayQty);
      totalTodayQty := totalTodayQty + todayQty;
      var w := WeightedAmountOf(rec, gradeKeys);
      weightedAmount := weightedAmount + w;
    }
    assert raw[..|raw|] == raw;
    t := DailyTotals(regionTotals, unionTotals, totalTodayQty, weightedAmount);
    DailyTotalsAddUp(raw, gradeKeys);
  }

  /** The latest-day block: None when there is no latest day or its file cannot be read. */
  method LatestDailyStats(latestDateStr: Option<string>, latestFile: Option<seq<RawRecord>>) returns (latestDaily: Option<LatestDaily>)
    ensures latestDateStr.None? || latestFile.None? ==> latestDaily.None?
    ensures latestDateStr.Some? && latestFile.Some? ==> latestDaily == Some(SummaryOf(DailyOf(latestFile.value, GradeOrder)))
  {
    latestDaily := None;
    if latestDateStr.None? || latestFile.None? {
      return;
    }
    var t := DailyTotalsOf(latestFile.value, GradeOrder);
    var topRegion := PickTopScan(t.regionTotals);
    var topUnion := PickTopScan(t.unionTotals);
    var average := if t.totalTodayQty > 0.0 then t.weightedAmount / t.totalTodayQty else 0.0;
    latestDaily := Some(LatestDaily(t.totalTodayQty, average, topRegion, topUnion));
  }
}
