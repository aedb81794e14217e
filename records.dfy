/**
 * The record shapes shared by the build scripts, the IndexedDB cache and
 * the UI helpers: the scraped record with string fields, the normalized
 * record with parsed numbers, the dataset header and the metadata row.
 * The six grades are a datatype; a grade key string maps to one of them or
 * to nothing.
 */
module Records {
  import opened Wrappers

  /** Figures reported until yesterday, today, and their running total. */
  datatype Stage<T> = Stage(untilYesterday: T, today: T, total: T)

  datatype Priced<T> = Priced(quantity: T, unitPrice: T)

  datatype Grade = Grade1 | Grade2 | Grade3Stopped | Grade3Estimated | GradeBelow | MixedGrade

  /** The fixed grade order used for sorting and for the change checks. */
  const GradeOrder: seq<Grade> := [Grade1, Grade2, Grade3Stopped, Grade3Estimated, GradeBelow, MixedGrade]

  /** The property name of a grade in the record objects. */
  function GradeKey(g: Grade): string {
    match g
    case Grade1 => "grade1"
    case Grade2 => "grade2"
    case Grade3Stopped => "grade3Stopped"
    case Grade3Estimated => "grade3Estimated"
    case GradeBelow => "gradeBelow"
    case MixedGrade => "mixedGrade"
  }

  /** `record[key]` is a grade entry exactly for the six grade keys. */
  function GradeOfKey(key: string): (r: Option<Grade>)
    ensures r.Some? ==> GradeKey(r.value) == key
  {
    if key == "grade1" then Some(Grade1)
    else if key == "grade2" then Some(Grade2)
    else if key == "grade3Stopped" then Some(Grade3Stopped)
    else if key == "grade3Estimated" then Some(Grade3Estimated)
    else if key == "gradeBelow" then Some(GradeBelow)
    else if key == "mixedGrade" then Some(MixedGrade)
    else None
  }

  lemma GradeKeyRoundTrip(g: Grade)
    ensures GradeOfKey(GradeKey(g)) == Some(g)
  {
  }

  /** Position of a grade in `GradeOrder`. */
  function GradePosition(g: Grade): (k: nat)
    ensures k < |GradeOrder| && GradeOrder[k] == g
  {
    match g
    case Grade1 => 0
    case Grade2 => 1
    case Grade3Stopped => 2
    case Grade3Estimated => 3
    case GradeBelow => 4
    case MixedGrade => 5
  }

  datatype Grades<T> = Grades(
    grade1: Priced<T>, grade2: Priced<T>, grade3Stopped: Priced<T>,
    grade3Estimated: Priced<T>, gradeBelow: Priced<T>, mixedGrade: Priced<T>)
  {
    function At(g: Grade): Priced<T> {
      match g
      case Grade1 => grade1
      case Grade2 => grade2
      case Grade3Stopped => grade3Stopped
      case Grade3Estimated => grade3Estimated
      case GradeBelow => gradeBelow
      case MixedGrade => mixedGrade
    }
  }

  /** A record as scraped: every figure is the text shown on the page. */
  datatype RawRecord = RawRecord(
    region: string,
    union: string,
    date: Option<string>,
    lastUpdated: Option<string>,
    auctionQuantity: Stage<string>,
    auctionAmount: Stage<string>,
    grades: Grades<string>)

  /** A normalized record as stored in the `auctionData` table. */
  datatype AuctionRecord = AuctionRecord(
    date: string,
    region: string,
    union: string,
    lastUpdated: Option<string>,
    auctionQuantity: Stage<real>,
    auctionAmount: Stage<real>,
    grades: Grades<real>)

  /**
   * The row of the `metadata` table. `lastUpdated` is the instant the row
   * was written, in milliseconds; `dbVersion` is absent in rows written
   * before the schema version existed.
   */
  datatype DatasetMetadata = DatasetMetadata(
    version: string,
    dbVersion: Option<string>,
    totalRecords: int,
    dateRangeEarliest: string,
    dateRangeLatest: string,
    regions: seq<string>,
    unions: seq<string>,
    lastUpdated: int)

  /** The published `complete-dataset.json`. */
  datatype CompleteDataset = CompleteDataset(
    version: string,
    totalRecords: int,
    earliest: string,
    latest: string,
    regions: seq<string>,
    unions: seq<string>,
    data: seq<AuctionRecord>)

  /** One plotted observation (`WeeklyPriceDatum`): a grade's figures on a day. */
  datatype ChartPoint = ChartPoint(
    date: string,
    region: string,
    union: string,
    gradeKey: string,
    quantityKg: real,
    unitPriceWon: real)

  /** The schema version the application writes and expects. */
  const CURRENT_DB_VERSION: string := "1.1.0"

  /** The schema version assumed for rows that carry none. */
  const LEGACY_DB_VERSION: string := "1.0.0"

  /** A JavaScript string value in a condition: present and non-empty. */
  predicate Truthy(s: Option<string>) {
    s.Some? && s.value != ""
  }
}
