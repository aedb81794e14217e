/**
 * The build script scripts/generate-complete-dataset.ts: every daily file's
 * scraped records are normalized (date from the file path when missing,
 * dates zero-padded, figures parsed), sorted by date then region, and
 * published with a header of totals, date range, regions and unions.
 */
module GenerateCompleteDataset {
  import opened Wrappers
  import opened Strings
  import opened Dates
  import opened Sorting
  import opened Grouping
  import opened Numbers
  import opened Records

  // ---------------------------------------------------------------
  // Dates
  // ---------------------------------------------------------------

  /** `normalizeDate`: a three-part `Y-M-D` gets month and day padded to two digits; anything else is kept. */
  function NormalizeDate(date: string): string {
    var parts := Split(date, '-');
    if |parts| == 3 then parts[0] + "-" + PadStart(parts[1], 2, '0') + "-" + PadStart(parts[2], 2, '0')
    else date
  }

  lemma PadKeepsNoDash(s: string)
    requires '-' !in s
    ensures '-' !in PadStart(s, 2, '0')
  {
    var r := PadStart(s, 2, '0');
    if |s| < 2 {
      forall i | 0 <= i < |r| ensures r[i] != '-' {
        if i >= |r| - |s| {
          assert r[i] == r[2 - |s|..][i - (2 - |s|)];
        }
      }
    }
  }

  /** Three dash-free fields joined by '-' split back into themselves. */
  lemma SplitDate(y: string, m: string, d: string)
    requires '-' !in y && '-' !in m && '-' !in d
    ensures Split(y + "-" + m + "-" + d, '-') == [y, m, d]
  {
    SplitThree(y, m, d, '-');
  }

  /** A dash-separated date with dash-free fields is padded field by field. */
  lemma NormalizeDateFields(y: string, m: string, d: string)
    requires '-' !in y && '-' !in m && '-' !in d
    ensures NormalizeDate(y + "-" + m + "-" + d) == y + "-" + PadStart(m, 2, '0') + "-" + PadStart(d, 2, '0')
  {
    SplitDate(y, m, d);
  }

  /** Normalizing twice is normalizing once. */
  lemma NormalizeDateIdempotent(date: string)
    ensures NormalizeDate(NormalizeDate(date)) == NormalizeDate(date)
  {
    var parts := Split(date, '-');
    if |parts| == 3 {
      var m := PadStart(parts[1], 2, '0');
      var d := PadStart(parts[2], 2, '0');
      PadKeepsNoDash(parts[1]);
      PadKeepsNoDash(parts[2]);
      NormalizeDateFields(parts[0], m, d);
      PadStartIdempotent(parts[1], 2, '0');
      PadStartIdempotent(parts[2], 2, '0');
    }
  }

  /** A date written with unpadded numbers, as a file path spells it, normalizes to the ISO form. */
  lemma NormalizePathDate(day: Date)
    requires Valid(day) && 1000 <= day.year <= 9999
    ensures NormalizeDate(NatToString(day.year) + "-" + NatToString(day.month) + "-" + NatToString(day.day)) == ToIso(day)
    ensures ParseIso(NormalizeDate(NatToString(day.year) + "-" + NatToString(day.month) + "-" + NatToString(day.day))) == Some(day)
  {
    NatToStringNoDash(day.year);
    NatToStringNoDash(day.month);
    NatToStringNoDash(day.day);
    NormalizeDateFields(NatToString(day.year), NatToString(day.month), NatToString(day.day));
    assert Pow10(3) == 1000 by {
      assert Pow10(1) == 10 && Pow10(2) == 100;
    }
    NatToStringLengthAtLeast(day.year, 3);
    IsoRoundTrip(day);
  }

  // ---------------------------------------------------------------
  // Records
  // ---------------------------------------------------------------

  /** `pathParts[pathParts.length - k]` in a template: "undefined" past the start. */
  function FromEnd(parts: seq<string>, k: nat): string {
    if k >= 1 && k <= |parts| then parts[|parts| - k] else "undefined"
  }

  /** The date spelled by `.../<year>/<month>/<day>.json`. */
  function DateFromPath(filePath: string): string {
    var pathParts := Split(filePath, '/');
    var fileName := RemoveFirst(FromEnd(pathParts, 1), ".json");
    FromEnd(pathParts, 3) + "-" + FromEnd(pathParts, 2) + "-" + fileName
  }

  lemma JsonNameNoSlash(day: string)
    requires '/' !in day
    ensures '/' !in day + ".json"
  {
    var file := day + ".json";
    forall i | 0 <= i < |file| ensures file[i] != '/' {
      if i < |day| {
        assert file[i] == day[i];
      }
    }
  }

  /** The path `<root>/<year>/<month>/<day>.json` yields `<year>-<month>-<day>`. */
  lemma DateFromPathOfDayFile(root: string, year: string, month: string, day: string)
    requires '/' !in root && '/' !in year && '/' !in month && '/' !in day && '.' !in day
    ensures DateFromPath(root + "/" + year + "/" + month + "/" + (day + ".json")) == year + "-" + month + "-" + day
  {
    JsonNameNoSlash(day);
    SplitFour(root, year, month, day + ".json", '/');
    RemoveExtension(day);
  }

  function ParseStage(s: Stage<string>): Stage<real> {
    Stage(ParseNumber(Some(s.untilYesterday)), ParseNumber(Some(s.today)), ParseNumber(Some(s.total)))
  }

  function ParsePriced(p: Priced<string>): Priced<real> {
    Priced(ParseNumber(Some(p.quantity)), ParseNumber(Some(p.unitPrice)))
  }

  /** `normalizeRecord`: the record's own date, or the path's, normalized; every figure parsed. */
  function NormalizeRecord(raw: RawRecord, filePath: string): (r: AuctionRecord)
    ensures r.region == raw.region && r.union == raw.union && r.lastUpdated == raw.lastUpdated
    ensures Truthy(raw.date) ==> r.date == NormalizeDate(raw.date.value)
    ensures !Truthy(raw.date) ==> r.date == NormalizeDate(DateFromPath(filePath))
    ensures r.auctionQuantity == ParseStage(raw.auctionQuantity) && r.auctionAmount == ParseStage(raw.auctionAmount)
  {
    var date := if Truthy(raw.date) then raw.date.value else DateFromPath(filePath);
    var gs := raw.grades;
    AuctionRecord(
      NormalizeDate(date), raw.region, raw.union, raw.lastUpdated,
      ParseStage(raw.auctionQuantity), ParseStage(raw.auctionAmount),
      Grades(ParsePriced(gs.grade1), ParsePriced(gs.grade2), ParsePriced(gs.grade3Stopped),
             ParsePriced(gs.grade3Estimated), ParsePriced(gs.gradeBelow), ParsePriced(gs.mixedGrade)))
  }

  /** Every grade's quantity and unit price is parsed with `parseNumber`. */
  lemma NormalizeRecordGrades(raw: RawRecord, filePath: string, g: Grade)
    ensures NormalizeRecord(raw, filePath).grades.At(g) == ParsePriced(raw.grades.At(g))
  {
  }

  /** Normalized dates are stable: normalizing a normalized record's date changes nothing. */
  lemma NormalizedDateIsFixed(raw: RawRecord, filePath: string)
    ensures NormalizeDate(NormalizeRecord(raw, filePath).date) == NormalizeRecord(raw, filePath).date
  {
    var date := if Truthy(raw.date) then raw.date.value else DateFromPath(filePath);
    NormalizeDateIdempotent(date);
  }

  // ---------------------------------------------------------------
  // Collecting day files
  // ---------------------------------------------------------------

  /**
   * A day file in directory order: its path and its parsed contents, None
   * when reading or parsing failed (the file is then skipped).
   */
  datatype DayFile = DayFile(path: string, contents: Option<seq<RawRecord>>)

  function NormalizeAll(raws: seq<RawRecord>, filePath: string): (rs: seq<AuctionRecord>)
    ensures |rs| == |raws|
  {
    if |raws| == 0 then [] else NormalizeAll(raws[..|raws| - 1], filePath) + [NormalizeRecord(raws[|raws| - 1], filePath)]
  }

  /** The i-th collected record of a file is its i-th raw record, normalized. */
  lemma {:induction false} NormalizeAllAt(raws: seq<RawRecord>, filePath: string, i: nat)
    requires i < |raws|
    ensures NormalizeAll(raws, filePath)[i] == NormalizeRecord(raws[i], filePath)
  {
    var pre := raws[..|raws| - 1];
    if i < |raws| - 1 {
      NormalizeAllAt(pre, filePath, i);
      assert pre[i] == raws[i];
    }
  }

  function FileRecords(f: DayFile): seq<AuctionRecord> {
    match f.contents
    case Some(raws) => NormalizeAll(raws, f.path)
    case None => []
  }

  /** Every readable file's records, in file order then record order. */
  function Collected(files: seq<DayFile>): seq<AuctionRecord> {
    if |files| == 0 then [] else Collected(files[..|files| - 1]) + FileRecords(files[|files| - 1])
  }

  method NormalizeFile(raws: seq<RawRecord>, dayPath: string) returns (records: seq<AuctionRecord>)
    ensures records == NormalizeAll(raws, dayPath)
  {
    records := [];
    for k := 0 to |raws|
      invariant records == NormalizeAll(raws[..k], dayPath)
    {
      assert raws[..k + 1][..k] == raws[..k];
      records := records + [NormalizeRecord(raws[k], dayPath)];
    }
    assert raws[..|raws|] == raws;
  }

  /** The innermost loops of `collectAllData`, over files already listed in order. */
  method CollectAllData(files: seq<DayFile>) returns (allRecords: seq<AuctionRecord>)
    ensures allRecords == Collected(files)
  {
    allRecords := [];
    for i := 0 to |files|
      invariant allRecords == Collected(files[..i])
    {
      assert files[..i + 1][..i] == files[..i];
      var more: seq<AuctionRecord> := [];
      if files[i].contents.Some? {
        more := NormalizeFile(files[i].contents.value, files[i].path);
      }
      allRecords := allRecords + more;
    }
    assert files[..|files|] == files;
  }

  /** The records of a file that could not be read are skipped; the rest are all kept. */
  lemma {:induction false} CollectedLength(files: seq<DayFile>)
    ensures |Collected(files)| == SumReadable(files)
  {
    if |files| > 0 {
      CollectedLength(files[..|files| - 1]);
    }
  }

  function SumReadable(files: seq<DayFile>): nat {
    if |files| == 0 then 0
    else SumReadable(files[..|files| - 1]) + (match files[|files| - 1].contents case Some(raws) => |raws| case None => 0)
  }

  // ---------------------------------------------------------------
  // Sorting and metadata
  // ---------------------------------------------------------------

  lemma LessEqIsTotalPreorder()
    ensures IsTotalPreorder(LessEq)
  {
    forall a, b, c ensures (LessEq(a, b) || LessEq(b, a)) && (LessEq(a, b) && LessEq(b, c) ==> LessEq(a, c)) {
      LessEqTotalOrder(a, b, c);
    }
  }

  /** Sorting strings by `LessEq` yields them in order. */
  lemma StringSortSorted(ds: seq<string>)
    ensures SortedBy(SortBy(ds, LessEq), LessEq)
  {
    LessEqIsTotalPreorder();
    SortBySorted(ds, LessEq);
  }

  /** The comparator of `main`: by date, then by region. */
  predicate RecordLe(a: AuctionRecord, b: AuctionRecord) {
    Less(a.date, b.date) || (a.date == b.date && LessEq(a.region, b.region))
  }

  lemma RecordLeIsTotalPreorder()
    ensures IsTotalPreorder(RecordLe)
  {
    forall a, b ensures RecordLe(a, b) || RecordLe(b, a) {
      LessTrichotomy(a.date, b.date);
      LessEqTotalOrder(a.region, b.region, b.region);
    }
    forall a, b, c | RecordLe(a, b) && RecordLe(b, c) ensures RecordLe(a, c) {
      if Less(a.date, b.date) && Less(b.date, c.date) {
        LessTransitive(a.date, b.date, c.date);
      }
      LessEqTotalOrder(a.region, b.region, c.region);
    }
  }

  /** The dataset header without the data. */
  datatype DatasetHeader = DatasetHeader(
    version: string, totalRecords: int, earliest: string, latest: string,
    regions: seq<string>, unions: seq<string>)

  function Region(r: AuctionRecord): string { r.region }
  function Union(r: AuctionRecord): string { r.union }
  function DateOf(r: AuctionRecord): string { r.date }

  /** `[...new Set(values)].sort()`. */
  function SortedDistinct(values: seq<string>): seq<string> {
    SortBy(Distinct(values), LessEq)
  }

  /** The distinct values, each once, in code-unit order. */
  lemma SortedDistinctProperties(values: seq<string>)
    ensures SortedBy(SortedDistinct(values), LessEq)
    ensures NoDuplicates(SortedDistinct(values))
    ensures forall v :: v in SortedDistinct(values) <==> v in values
  {
    StringSortSorted(Distinct(values));
    DistinctNoDuplicates(values);
    NoDuplicatesPermutation(Distinct(values), SortedDistinct(values));
    forall v ensures v in SortedDistinct(values) <==> v in values {
      DistinctHasAll(values, v);
      InMultiset(SortedDistinct(values), v);
      InMultiset(Distinct(values), v);
    }
  }

  /** `records.map((r) => r.date).sort()`. */
  function SortedDates(records: seq<AuctionRecord>): seq<string> {
    SortBy(MapSeq(records, DateOf), LessEq)
  }

  /** Every input string lies between the first and the last of the sorted strings. */
  lemma SortedStringsEnds(ds: seq<string>, x: string)
    requires x in ds
    ensures LessEq(SortBy(ds, LessEq)[0], x) && LessEq(x, SortBy(ds, LessEq)[|ds| - 1])
  {
    var sorted := SortBy(ds, LessEq);
    StringSortSorted(ds);
    SameMembers(ds, sorted, x);
    SortedEnds(sorted, x);
  }

  /** Sorting strings puts a least one first and a greatest one last, both taken from the input. */
  lemma SortedStringsBound(ds: seq<string>, k: nat)
    requires k < |ds|
    ensures LessEq(SortBy(ds, LessEq)[0], ds[k]) && LessEq(ds[k], SortBy(ds, LessEq)[|ds| - 1])
    ensures SortBy(ds, LessEq)[0] in ds && SortBy(ds, LessEq)[|ds| - 1] in ds
  {
    SortedStringsEnds(ds, ds[k]);
    SortByEndsIn(ds, LessEq);
  }

  /** The sorted dates are the records' dates, in order: the first is least and the last greatest. */
  lemma SortedDatesBound(records: seq<AuctionRecord>, k: nat)
    requires k < |records|
    ensures LessEq(SortedDates(records)[0], records[k].date)
    ensures LessEq(records[k].date, SortedDates(records)[|records| - 1])
    ensures SortedDates(records)[0] in MapSeq(records, DateOf)
    ensures SortedDates(records)[|records| - 1] in MapSeq(records, DateOf)
  {
    SortedStringsBound(MapSeq(records, DateOf), k);
  }

  /**
   * `generateMetadata`; `now` is `new Date().toISOString()`. The date range
   * is the first and last of the sorted dates, or "" for no records.
   */
  function GenerateMetadata(records: seq<AuctionRecord>, now: string): (h: DatasetHeader)
    ensures h.totalRecords == |records|
  {
    var dates := SortedDates(records);
    DatasetHeader(
      now, |records|,
      if |dates| > 0 then dates[0] else "",
      if |dates| > 0 then dates[|dates| - 1] else "",
      SortedDistinct(MapSeq(records, Region)),
      SortedDistinct(MapSeq(records, Union)))
  }

  lemma SortedEnds(dates: seq<string>, x: string)
    requires SortedBy(dates, LessEq) && x in dates
    ensures LessEq(dates[0], x) && LessEq(x, dates[|dates| - 1])
  {
    var p :| 0 <= p < |dates| && dates[p] == x;
    if p > 0 {
      assert LessEq(dates[0], dates[p]);
    }
    if p < |dates| - 1 {
      assert LessEq(dates[p], dates[|dates| - 1]);
    }
  }

  lemma SameMembers(s: seq<string>, t: seq<string>, x: string)
    requires multiset(s) == multiset(t)
    ensures x in s <==> x in t
  {
    InMultiset(s, x);
    InMultiset(t, x);
  }

  /** The date range bounds every record's date, and both ends are dates of records. */
  lemma MetadataDateRange(records: seq<AuctionRecord>, now: string, k: nat)
    requires k < |records|
    ensures LessEq(GenerateMetadata(records, now).earliest, records[k].date)
    ensures LessEq(records[k].date, GenerateMetadata(records, now).latest)
    ensures GenerateMetadata(records, now).earliest in MapSeq(records, DateOf)
    ensures GenerateMetadata(records, now).latest in MapSeq(records, DateOf)
  {
    SortedDatesBound(records, k);
  }

  /** Regions and unions: each value in the records once, sorted. */
  lemma MetadataRegionsAndUnions(records: seq<AuctionRecord>, now: string)
    ensures SortedBy(GenerateMetadata(records, now).regions, LessEq)
    ensures NoDuplicates(GenerateMetadata(records, now).regions)
    ensures forall v :: v in GenerateMetadata(records, now).regions <==> exists k :: 0 <= k < |records| && records[k].region == v
    ensures SortedBy(GenerateMetadata(records, now).unions, LessEq)
    ensures NoDuplicates(GenerateMetadata(records, now).unions)
    ensures forall v :: v in GenerateMetadata(records, now).unions <==> exists k :: 0 <= k < |records| && records[k].union == v
  {
    SortedDistinctField(records, Region);
    SortedDistinctField(records, Union);
  }

  lemma SortedDistinctField(records: seq<AuctionRecord>, key: AuctionRecord -> string)
    ensures SortedBy(SortedDistinct(MapSeq(records, key)), LessEq)
    ensures NoDuplicates(SortedDistinct(MapSeq(records, key)))
    ensures forall v :: v in SortedDistinct(MapSeq(records, key)) <==> exists k :: 0 <= k < |records| && key(records[k]) == v
  {
    SortedDistinctProperties(MapSeq(records, key));
    forall v ensures v in MapSeq(records, key) <==> exists k :: 0 <= k < |records| && key(records[k]) == v {
      MapSeqMembers(records, key, v);
    }
  }

  /** No records, no range. */
  lemma MetadataOfNothing(now: string)
    ensures GenerateMetadata([], now) == DatasetHeader(now, 0, "", "", [], [])
  {
  }

  /** `main` after collecting: no records is an error; else sort and attach the header. */
  function BuildDataset(allRecords: seq<AuctionRecord>, now: string): (r: Result<CompleteDataset, string>)
    ensures r.Failure? <==> |allRecords| == 0
    ensures r.Success? ==> multiset(r.value.data) == multiset(allRecords) && r.value.totalRecords == |allRecords|
  {
    if |allRecords| == 0 then Failure("no data")
    else
      var sorted := SortBy(allRecords, RecordLe);
      var h := GenerateMetadata(sorted, now);
      Success(CompleteDataset(h.version, h.totalRecords, h.earliest, h.latest, h.regions, h.unions, sorted))
  }

  /** The published data is ordered by date, then region. */
  lemma BuildDatasetSorted(allRecords: seq<AuctionRecord>, now: string)
    requires |allRecords| > 0
    ensures SortedBy(BuildDataset(allRecords, now).value.data, RecordLe)
  {
    RecordLeIsTotalPreorder();
    SortBySorted(allRecords, RecordLe);
  }
}
