/**
 * The table helpers of src/utils/tableUtils.ts: the Korean grade names and
 * the flattening of filtered records into one row per (record, selected
 * grade), newest date first and grades in their fixed order within a day.
 */
module TableUtils {
  import opened Wrappers
  import opened Strings
  import opened Sorting
  import opened Numbers
  import opened Records
  import opened Arith

  function GradeName(g: Grade): string {
    match g
    case Grade1 => "1등품"
    case Grade2 => "2등품"
    case Grade3Stopped => "3등품(생장정지)"
    case Grade3Estimated => "3등품(개산)"
    case GradeBelow => "등외품"
    case MixedGrade => "혼합품"
  }

  /** `getGradeName`: the display name of a grade key, or the key itself when it names no grade. */
  function GetGradeName(gradeKey: string): (r: string)
    ensures GradeOfKey(gradeKey).Some? ==> r == GradeName(GradeOfKey(gradeKey).value)
    ensures GradeOfKey(gradeKey).None? ==> r == gradeKey
  {
    match GradeOfKey(gradeKey)
    case Some(g) => if GradeName(g) != "" then GradeName(g) else gradeKey
    case None => gradeKey
  }

  /** The six grades have six different names, each different from every grade key. */
  lemma GradeNamesDistinct(g: Grade, h: Grade)
    ensures g != h ==> GetGradeName(GradeKey(g)) != GetGradeName(GradeKey(h))
    ensures GetGradeName(GradeKey(g)) != GradeKey(h)
  {
    GradeKeyRoundTrip(g);
  }

  datatype TableRow = TableRow(
    id: string,
    date: string,
    region: string,
    union: string,
    grade: string,
    gradeName: string,
    quantity: real,
    unitPrice: real)

  /** `record.date || fallback`. */
  function DateOr(date: Option<string>, fallback: string): string {
    if Truthy(date) then date.value else fallback
  }

  /** The row id `${record.date || "unknown"}-${region}-${union}-${gradeKey}`. */
  function RowId(r: RawRecord, gradeKey: string): string {
    DateOr(r.date, "unknown") + "-" + r.region + "-" + r.union + "-" + gradeKey
  }

  /**
   * The row a record yields for one grade key: only for a grade entry with
   * both strings non-empty and a positive quantity or unit price.
   */
  function RowOf(r: RawRecord, gradeKey: string): (rows: seq<TableRow>)
    ensures |rows| <= 1
  {
    match GradeOfKey(gradeKey)
    case None => []
    case Some(g) =>
      var e := r.grades.At(g);
      if e.quantity != "" && e.unitPrice != "" then
        var q := LooseNumber(e.quantity);
        var p := LooseNumber(e.unitPrice);
        if q > 0.0 || p > 0.0 then
          [TableRow(RowId(r, gradeKey), DateOr(r.date, "날짜 미상"), r.region, r.union, gradeKey, GetGradeName(gradeKey), q, p)]
        else []
      else []
  }

  function RecordRows(r: RawRecord, keys: seq<string>): (rows: seq<TableRow>)
    ensures |rows| <= |keys|
  {
    if |keys| == 0 then [] else RecordRows(r, keys[..|keys| - 1]) + RowOf(r, keys[|keys| - 1])
  }

  function AllRows(data: seq<RawRecord>, keys: seq<string>): seq<TableRow> {
    if |data| == 0 then [] else AllRows(data[..|data| - 1], keys) + RecordRows(data[|data| - 1], keys)
  }

  /** `gradeOrder.indexOf(grade)`: -1 for a key outside the grade order. */
  function Rank(gradeKey: string): int {
    match GradeOfKey(gradeKey)
    case Some(g) => GradePosition(g)
    case None => -1
  }

  /**
   * The comparator returns at most 0: on the same date the grade ranks are in
   * order; otherwise `b.date.localeCompare(a.date) <= 0`, the later date first.
   */
  predicate TableRowLe(a: TableRow, b: TableRow) {
    if a.date == b.date then Rank(a.grade) <= Rank(b.grade) else Less(b.date, a.date)
  }

  lemma TableRowLeTotal(a: TableRow, b: TableRow)
    ensures TableRowLe(a, b) || TableRowLe(b, a)
  {
    LessTrichotomy(a.date, b.date);
  }

  lemma TableRowLeTransitive(a: TableRow, b: TableRow, c: TableRow)
    requires TableRowLe(a, b) && TableRowLe(b, c)
    ensures TableRowLe(a, c)
  {
    if a.date != b.date && b.date != c.date {
      LessTransitive(c.date, b.date, a.date);
      LessIrreflexive(a.date);
    }
  }

  lemma TableRowLeIsTotalPreorder()
    ensures IsTotalPreorder(TableRowLe)
  {
    forall a, b ensures TableRowLe(a, b) || TableRowLe(b, a) {
      TableRowLeTotal(a, b);
    }
    forall a, b, c | TableRowLe(a, b) && TableRowLe(b, c) ensures TableRowLe(a, c) {
      TableRowLeTransitive(a, b, c);
    }
  }

  /** The rows of `transformToTableData`, sorted. */
  function TableData(data: seq<RawRecord>, keys: seq<string>): seq<TableRow> {
    SortBy(AllRows(data, keys), TableRowLe)
  }

  /** Every emitted row is for a known, selected grade with its display name and a positive figure. */
  predicate RowQualifies(row: TableRow, keys: seq<string>) {
    && row.grade in keys
    && GradeOfKey(row.grade).Some?
    && row.gradeName == GetGradeName(row.grade)
    && (row.quantity > 0.0 || row.unitPrice > 0.0)
  }

  /** A row of a record's rows is in the rows of all keys but the last, or in the last key's row. */
  lemma RecordRowsSplit(r: RawRecord, keys: seq<string>, row: TableRow)
    requires row in RecordRows(r, keys)
    ensures |keys| > 0
    ensures row in RecordRows(r, keys[..|keys| - 1]) || row in RowOf(r, keys[|keys| - 1])
  {
    assert 0 < |RecordRows(r, keys)| <= |keys|;
  }

  /** Dropping the last key leaves the earlier keys where they were. */
  lemma DropLastIndex(keys: seq<string>, i: nat)
    requires i < |keys| - 1
    ensures keys[..|keys| - 1][i] == keys[i]
  {
  }

  lemma {:induction false} RecordRowsSource(r: RawRecord, keys: seq<string>, row: TableRow) returns (j: nat)
    requires row in RecordRows(r, keys)
    ensures j < |keys| && row in RowOf(r, keys[j])
    decreases |keys|
  {
    RecordRowsSplit(r, keys, row);
    var n := |keys| - 1;
    var pre := keys[..n];
    var lastRows := RowOf(r, keys[n]);
    if row in lastRows {
      return n;
    }
    var i := RecordRowsSource(r, pre, row);
    DropLastIndex(keys, i);
    return i;
  }

  lemma {:induction false} RecordRowsPresent(r: RawRecord, keys: seq<string>, j: nat, row: TableRow)
    requires j < |keys| && row in RowOf(r, keys[j])
    ensures row in RecordRows(r, keys)
  {
    var pre := keys[..|keys| - 1];
    if j < |keys| - 1 {
      assert pre[j] == keys[j];
      RecordRowsPresent(r, pre, j, row);
    }
  }

  lemma {:induction false} AllRowsSource(data: seq<RawRecord>, keys: seq<string>, row: TableRow) returns (i: nat)
    requires row in AllRows(data, keys)
    ensures i < |data| && row in RecordRows(data[i], keys)
  {
    var pre := data[..|data| - 1];
    if row in RecordRows(data[|data| - 1], keys) {
      i := |data| - 1;
    } else {
      i := AllRowsSource(pre, keys, row);
      assert pre[i] == data[i];
    }
  }

  lemma {:induction false} AllRowsPresent(data: seq<RawRecord>, keys: seq<string>, i: nat, row: TableRow)
    requires i < |data| && row in RecordRows(data[i], keys)
    ensures row in AllRows(data, keys)
  {
    var pre := data[..|data| - 1];
    if i < |data| - 1 {
      assert pre[i] == data[i];
      AllRowsPresent(pre, keys, i, row);
    }
  }

  /** Every row of the table comes from one record and one selected grade key. */
  lemma TableRowSource(data: seq<RawRecord>, keys: seq<string>, row: TableRow) returns (i: nat, j: nat)
    requires row in TableData(data, keys)
    ensures i < |data| && j < |keys| && row in RowOf(data[i], keys[j])
  {
    assert row in multiset(AllRows(data, keys));
    i := AllRowsSource(data, keys, row);
    j := RecordRowsSource(data[i], keys, row);
  }

  /** Every row a record yields for a selected grade key is in the table. */
  lemma TableRowPresent(data: seq<RawRecord>, keys: seq<string>, i: nat, j: nat, row: TableRow)
    requires i < |data| && j < |keys| && row in RowOf(data[i], keys[j])
    ensures row in TableData(data, keys)
  {
    RecordRowsPresent(data[i], keys, j, row);
    AllRowsPresent(data, keys, i, row);
    assert row in multiset(TableData(data, keys));
  }

  lemma RowOfQualifies(r: RawRecord, key: string, keys: seq<string>)
    requires key in keys
    ensures forall row :: row in RowOf(r, key) ==> RowQualifies(row, keys) && row.grade == key
  {
  }

  lemma TableRowsQualify(data: seq<RawRecord>, keys: seq<string>, row: TableRow)
    requires row in TableData(data, keys)
    ensures RowQualifies(row, keys)
  {
    var i, j := TableRowSource(data, keys, row);
    RowOfQualifies(data[i], keys[j], keys);
  }

  lemma TableDataSorted(data: seq<RawRecord>, keys: seq<string>)
    ensures SortedBy(TableData(data, keys), TableRowLe)
  {
    TableRowLeIsTotalPreorder();
    SortBySorted(AllRows(data, keys), TableRowLe);
  }

  lemma {:induction false} AllRowsBound(data: seq<RawRecord>, keys: seq<string>)
    ensures |AllRows(data, keys)| <= |data| * |keys|
  {
    if |data| > 0 {
      AllRowsBound(data[..|data| - 1], keys);
      MulStep(|data|, |keys|);
    }
  }

  /** At most one row per (record, selected grade). */
  lemma TableDataBound(data: seq<RawRecord>, keys: seq<string>)
    ensures |TableData(data, keys)| <= |data| * |keys|
  {
    AllRowsBound(data, keys);
  }

  method RowsOfRecord(record: RawRecord, selectedGrades: seq<string>) returns (rows: seq<TableRow>)
    ensures rows == RecordRows(record, selectedGrades)
  {
    rows := [];
    var j := 0;
    while j < |selectedGrades|
      invariant 0 <= j <= |selectedGrades|
      invariant rows == RecordRows(record, selectedGrades[..j])
    {
      var next := selectedGrades[..j + 1];
      assert next[..j] == selectedGrades[..j] && next[j] == selectedGrades[j];
      var row := RowOf(record, selectedGrades[j]);
      assert RecordRows(record, next) == RecordRows(record, selectedGrades[..j]) + row;
      rows := rows + row;
      j := j + 1;
    }
    assert selectedGrades[..|selectedGrades|] == selectedGrades;
  }

  /** `transformToTableData`: both `forEach` loops, then the sort. */
  method TransformToTableData(filteredData: seq<RawRecord>, selectedGrades: seq<string>) returns (table: seq<TableRow>)
    ensures table == TableData(filteredData, selectedGrades)
    ensures SortedBy(table, TableRowLe)
    ensures forall row :: row in table ==> RowQualifies(row, selectedGrades)
  {
    var rows: seq<TableRow> := [];
    var i := 0;
    while i < |filteredData|
      invariant 0 <= i <= |filteredData|
      invariant rows == AllRows(filteredData[..i], selectedGrades)
    {
      var more := RowsOfRecord(filteredData[i], selectedGrades);
      var next := filteredData[..i + 1];
      assert next[..i] == filteredData[..i] && next[i] == filteredData[i];
      assert AllRows(next, selectedGrades) == AllRows(filteredData[..i], selectedGrades) + more;
      rows := rows + more;
      i := i + 1;
    }
    assert filteredData[..|filteredData|] == filteredData;
    table := SortBy(rows, TableRowLe);
    TableDataSorted(filteredData, selectedGrades);
    forall row | row in table ensures RowQualifies(row, selectedGrades) {
      TableRowsQualify(filteredData, selectedGrades, row);
    }
  }
}
