/** The spreadsheet as `pd.read_excel` hands it over: named columns over rows of cells.
    The per-user summary decodes five of its columns into records; the row-sum script adds a
    'RowSum' column to it. */
module Tables {
  import opened Wrappers
  import opened Collections
  import opened Timesheet

  /** One cell: a number, a string, a parsed date, or an empty cell (NaN/NaT). */
  datatype Cell = Number(x: real) | Text(s: string) | Moment(d: Date) | Blank

  datatype Table = Table(columns: seq<string>, rows: seq<seq<Cell>>)

  /** What `read_excel` guarantees: column names are unique (duplicates come back renamed)
      and every row has one cell per column. */
  predicate WellFormed(t: Table)
  {
    NoDuplicates(t.columns) && forall i :: 0 <= i < |t.rows| ==> |t.rows[i]| == |t.columns|
  }

  /** The strings that pandas 2 reads as a missing value by default, so that such a cell
      arrives as NaN rather than as text. */
  const MissingMarkers: set<string> :=
    {"", "#N/A", "#N/A N/A", "#NA", "-1.#IND", "-1.#QNAN", "-NaN", "-nan", "1.#IND", "1.#QNAN",
     "<NA>", "N/A", "NA", "NULL", "NaN", "None", "n/a", "nan", "null"}

  /** No missing-value string is longer than eight characters. */
  lemma LongIsNotMissing(s: string)
    requires |s| > 8
    ensures s !in MissingMarkers
  {
    assert forall m :: m in MissingMarkers ==> |m| <= 8;
  }

  /** The placeholder for a missing project is not itself read as missing. */
  lemma PlaceholderIsNotMissing()
    ensures NoProject !in MissingMarkers
  {
    LongIsNotMissing(NoProject);
  }

  /** One stored cell as read: a missing-value string becomes an empty cell. */
  function ReadCell(c: Cell): (r: Cell)
    ensures !(r.Text? && r.s in MissingMarkers)
    ensures c.Text? && c.s in MissingMarkers ==> r.Blank?
    ensures !(c.Text? && c.s in MissingMarkers) ==> r == c
  {
    if c.Text? && c.s in MissingMarkers then Blank else c
  }

  /** No cell holds a string that reading would have turned into a missing value. */
  predicate MarkersRead(t: Table)
  {
    forall i, j :: 0 <= i < |t.rows| && 0 <= j < |t.rows[i]| ==> !(t.rows[i][j].Text? && t.rows[i][j].s in MissingMarkers)
  }

  /** Reading the stored sheet: the header is kept, every cell is read. */
  function ReadExcel(t: Table): (r: Table)
    ensures r.columns == t.columns && |r.rows| == |t.rows|
    ensures forall i :: 0 <= i < |t.rows| ==> |r.rows[i]| == |t.rows[i]|
    ensures forall i, j :: 0 <= i < |t.rows| && 0 <= j < |t.rows[i]| ==> r.rows[i][j] == ReadCell(t.rows[i][j])
    ensures MarkersRead(r)
    ensures WellFormed(t) ==> WellFormed(r)
  {
    Table(t.columns, seq(|t.rows|, i requires 0 <= i < |t.rows| =>
      seq(|t.rows[i]|, j requires 0 <= j < |t.rows[i]| => ReadCell(t.rows[i][j]))))
  }

  /** Why processing stops: an unknown script name (`ValueError`), a column the summary needs
      is absent, a cell of the wrong kind, or a workbook left without any sheet (which is also
      what is reported when the summary fails before its first sheet is written, since closing
      the writer then raises in place of the original error). */
  datatype Error =
    | UnsupportedScriptChoice
    | MissingColumn(name: string)
    | MalformedCell(column: string, row: nat)
    | NoSheetToSave

  const UserColumn: string := "User"
  const ProjectColumn: string := "Project"
  const DateColumn: string := "Date"
  const HoursColumn: string := "Hours"
  const CompanyColumn: string := "Spółka (user field)"

  /** The position of column `name`, absent when there is no such column. */
  function ColumnIndex(t: Table, name: string): (r: Option<nat>)
    ensures r.Some? <==> name in t.columns
    ensures r.Some? ==> r.value < |t.columns| && t.columns[r.value] == name
  {
    if name in t.columns then Some(FirstIndex(t.columns, name)) else None
  }

  /** The cell of column `name` in row `i`, when both exist. */
  function Lookup(t: Table, i: nat, name: string): Option<Cell>
  {
    match ColumnIndex(t, name)
    case None => None
    case Some(j) => if i < |t.rows| && j < |t.rows[i]| then Some(t.rows[i][j]) else None
  }

  /** Positions of the five columns the summary reads. */
  datatype Layout = Layout(user: nat, project: nat, date: nat, hours: nat, company: nat)

  predicate Fits(l: Layout, n: nat)
  {
    l.user < n && l.project < n && l.date < n && l.hours < n && l.company < n
  }

  /** The columns in the order the user loop touches them: 'Project', 'Date', 'Hours',
      'Spółka (user field)'; the first one missing is reported. */
  function FindLayout(t: Table, user: nat): (r: Result<Layout, Error>)
    ensures r.Success? ==> (ColumnIndex(t, ProjectColumn).Some? && ColumnIndex(t, DateColumn).Some?
      && ColumnIndex(t, HoursColumn).Some? && ColumnIndex(t, CompanyColumn).Some?)
    ensures r.Success? <==> (ProjectColumn in t.columns && DateColumn in t.columns
      && HoursColumn in t.columns && CompanyColumn in t.columns)
    ensures r.Failure? ==> r.error.MissingColumn? && r.error.name !in t.columns
    ensures r.Success? && user < |t.columns| ==> Fits(r.value, |t.columns|)
  {
    match (ColumnIndex(t, ProjectColumn), ColumnIndex(t, DateColumn), ColumnIndex(t, HoursColumn), ColumnIndex(t, CompanyColumn))
    case (None, _, _, _) => Failure(MissingColumn(ProjectColumn))
    case (_, None, _, _) => Failure(MissingColumn(DateColumn))
    case (_, _, None, _) => Failure(MissingColumn(HoursColumn))
    case (_, _, _, None) => Failure(MissingColumn(CompanyColumn))
    case (Some(p), Some(d), Some(h), Some(c)) => Success(Layout(user, p, d, h, c))
  }

  /** A 'Project' cell: a string, or empty (filled in later with the placeholder); `None`
      for a cell of any other kind. */
  function ProjectCell(c: Cell): Option<Option<string>>
  {
    match c
    case Text(s) => Some(Some(s))
    case Blank => Some(None)
    case _ => None
  }

  /** An 'Hours' cell: a number; an empty cell adds nothing to a sum. */
  function HoursCell(c: Cell): Option<real>
  {
    match c
    case Number(x) => Some(x)
    case Blank => Some(0.0)
    case _ => None
  }

  /** A 'Spółka (user field)' cell: only strings survive the `isinstance(val, str)` filter. */
  function CompanyCell(c: Cell): Option<string>
  {
    if c.Text? then Some(c.s) else None
  }

  /** One row as a record, or the first of its five cells that cannot be read. */
  function DecodeRow(row: seq<Cell>, l: Layout, i: nat): (r: Result<Record, Error>)
    requires Fits(l, |row|)
    ensures r.Success? <==> (row[l.user].Text? && ProjectCell(row[l.project]).Some?
      && row[l.date].Moment? && HoursCell(row[l.hours]).Some?)
    ensures r.Success? ==> r.value == Record(row[l.user].s, ProjectCell(row[l.project]).value,
      row[l.date].d, HoursCell(row[l.hours]).value, CompanyCell(row[l.company]))
    ensures r.Failure? ==> r.error.MalformedCell? && r.error.row == i
  {
    if !row[l.user].Text? then Failure(MalformedCell(UserColumn, i))
    else if ProjectCell(row[l.project]).None? then Failure(MalformedCell(ProjectColumn, i))
    else if !row[l.date].Moment? then Failure(MalformedCell(DateColumn, i))
    else if HoursCell(row[l.hours]).None? then Failure(MalformedCell(HoursColumn, i))
    else Success(Record(row[l.user].s, ProjectCell(row[l.project]).value, row[l.date].d,
                        HoursCell(row[l.hours]).value, CompanyCell(row[l.company])))
  }

  /** Rows `from`, `from + 1`, ... as records: all of them, or the error of the first bad one. */
  function DecodeRows(rows: seq<seq<Cell>>, l: Layout, from: nat): (r: Result<seq<Record>, Error>)
    requires forall i :: 0 <= i < |rows| ==> Fits(l, |rows[i]|)
    ensures r.Success? ==> (|r.value| == |rows|
      && forall i :: 0 <= i < |rows| ==> DecodeRow(rows[i], l, from + i) == Success(r.value[i]))
    ensures r.Failure? ==> exists i :: 0 <= i < |rows| && DecodeRow(rows[i], l, from + i) == Failure(r.error)
    ensures r.Failure? <==> exists i :: 0 <= i < |rows| && DecodeRow(rows[i], l, from + i).Failure?
  {
    if rows == [] then Success([])
    else match DecodeRow(rows[0], l, from)
      case Failure(e) => Failure(e)
      case Success(x) =>
        match DecodeRows(rows[1..], l, from + 1)
        case Failure(e) =>
          var k :| 0 <= k < |rows[1..]| && DecodeRow(rows[1..][k], l, from + 1 + k) == Failure(e);
          assert DecodeRow(rows[k + 1], l, from + (k + 1)) == Failure(e);
          Failure(e)
        case Success(xs) =>
          assert forall i :: 1 <= i < |rows| ==> DecodeRow(rows[i], l, from + i) == DecodeRow(rows[1..][i - 1], l, from + 1 + (i - 1));
          Success([x] + xs)
  }

  /** The records the per-user summary works on. Only 'User' is needed before the loop over
      users; the other four columns are first needed inside it, so a table without rows needs
      nothing else. */
  function ReadRecords(t: Table): (r: Result<seq<Record>, Error>)
    requires WellFormed(t)
    ensures UserColumn !in t.columns ==> r == Failure(MissingColumn(UserColumn))
    ensures UserColumn in t.columns && t.rows == [] ==> r == Success([])
    ensures r.Success? ==> |r.value| == |t.rows|
    ensures (t.rows != [] && (ProjectColumn !in t.columns || DateColumn !in t.columns
      || HoursColumn !in t.columns || CompanyColumn !in t.columns)) ==> r.Failure? && r.error.MissingColumn?
    ensures r.Failure? && r.error.MissingColumn? ==> r.error.name !in t.columns
  {
    match ColumnIndex(t, UserColumn)
    case None => Failure(MissingColumn(UserColumn))
    case Some(u) =>
      if t.rows == [] then Success([])
      else match FindLayout(t, u)
        case Failure(e) => Failure(e)
        case Success(l) => DecodeRows(t.rows, l, 0)
  }

  /** The first user's rows cannot all be read: some row whose 'User' cell equals that of
      row 0 has a cell of the wrong kind. The summary then stops before writing any sheet. */
  predicate FirstUserFails(t: Table)
    requires WellFormed(t)
  {
    match ColumnIndex(t, UserColumn)
    case None => false
    case Some(u) =>
      t.rows != [] &&
      match FindLayout(t, u)
      case Failure(_) => false
      case Success(l) =>
        exists i :: 0 <= i < |t.rows| && t.rows[i][u] == t.rows[0][u] && DecodeRow(t.rows[i], l, i).Failure?
  }

  /** A record read from row `i` holds that row's cells: the user and date as they stand,
      the project and hours as their cells read, the company when it is a string. */
  lemma ReadRecordsCells(t: Table, i: nat)
    requires WellFormed(t) && ReadRecords(t).Success? && i < |t.rows|
    ensures var x := ReadRecords(t).value[i];
      Lookup(t, i, UserColumn) == Some(Text(x.user))
      && Lookup(t, i, DateColumn) == Some(Moment(x.date))
      && Lookup(t, i, ProjectColumn).Some? && ProjectCell(Lookup(t, i, ProjectColumn).value) == Some(x.project)
      && Lookup(t, i, HoursColumn).Some? && HoursCell(Lookup(t, i, HoursColumn).value) == Some(x.hours)
      && Lookup(t, i, CompanyColumn).Some? && x.company == CompanyCell(Lookup(t, i, CompanyColumn).value)
  {
    var u := ColumnIndex(t, UserColumn).value;
    var l := FindLayout(t, u).value;
    assert DecodeRow(t.rows[i], l, i) == Success(ReadRecords(t).value[i]);
  }

  /** From a read table, no record has a project or a company that is a missing-value string;
      in particular none is empty. */
  lemma ReadRecordsNamed(t: Table)
    requires WellFormed(t) && MarkersRead(t) && ReadRecords(t).Success?
    ensures forall i :: 0 <= i < |ReadRecords(t).value| ==>
      (ReadRecords(t).value[i].project.Some? ==> ReadRecords(t).value[i].project.value !in MissingMarkers)
      && (ReadRecords(t).value[i].company.Some? ==> ReadRecords(t).value[i].company.value !in MissingMarkers)
  {
    var rs := ReadRecords(t).value;
    forall i | 0 <= i < |rs|
      ensures (rs[i].project.Some? ==> rs[i].project.value !in MissingMarkers)
        && (rs[i].company.Some? ==> rs[i].company.value !in MissingMarkers)
    {
      ReadRecordsCells(t, i);
      var p := ColumnIndex(t, ProjectColumn).value;
      var c := ColumnIndex(t, CompanyColumn).value;
      assert Lookup(t, i, ProjectColumn) == Some(t.rows[i][p]);
      assert Lookup(t, i, CompanyColumn) == Some(t.rows[i][c]);
    }
  }

  /** The columns of a record table, in the order `Encode` writes them. */
  const RecordColumns: seq<string> := [UserColumn, ProjectColumn, DateColumn, HoursColumn, CompanyColumn]

  function EncodeRecord(x: Record): seq<Cell>
  {
    [Text(x.user), if x.project.Some? then Text(x.project.value) else Blank, Moment(x.date),
     Number(x.hours), if x.company.Some? then Text(x.company.value) else Blank]
  }

  /** A sheet holding exactly the given records. */
  function Encode(rs: seq<Record>): (t: Table)
    ensures WellFormed(t)
  {
    Table(RecordColumns, seq(|rs|, i requires 0 <= i < |rs| => EncodeRecord(rs[i])))
  }

  /** The five columns of an encoded table sit at positions 0 .. 4. */
  lemma EncodedLayout(rs: seq<Record>)
    ensures ColumnIndex(Encode(rs), UserColumn) == Some(0)
    ensures FindLayout(Encode(rs), 0) == Success(Layout(0, 1, 2, 3, 4))
  {
    var t := Encode(rs);
    assert t.columns == RecordColumns;
    assert FirstIndex(RecordColumns, UserColumn) == 0;
    assert FirstIndex(RecordColumns, ProjectColumn) == 1;
    assert FirstIndex(RecordColumns, DateColumn) == 2;
    assert FirstIndex(RecordColumns, HoursColumn) == 3;
    assert FirstIndex(RecordColumns, CompanyColumn) == 4;
  }

  lemma DecodeEncodedRecord(x: Record, i: nat)
    ensures DecodeRow(EncodeRecord(x), Layout(0, 1, 2, 3, 4), i) == Success(x)
  {
  }

  /** Reading back a sheet written from records gives the same records. */
  lemma ReadEncoded(rs: seq<Record>)
    ensures ReadRecords(Encode(rs)) == Success(rs)
  {
    var t := Encode(rs);
    if rs != [] {
      var l := Layout(0, 1, 2, 3, 4);
      EncodedLayout(rs);
      forall i | 0 <= i < |rs| ensures DecodeRow(t.rows[i], l, i) == Success(rs[i]) {
        DecodeEncodedRecord(rs[i], i);
      }
      var r := DecodeRows(t.rows, l, 0);
      assert r.Success?;
      assert r.value == rs;
    }
  }

  /** What reading keeps of a record written out: a project or company that is a
      missing-value string comes back missing. */
  function Forget(x: Record): (y: Record)
    ensures y.user == x.user && y.date == x.date && y.hours == x.hours
    ensures y.project == (if x.project.Some? && x.project.value in MissingMarkers then None else x.project)
    ensures y.company == (if x.company.Some? && x.company.value in MissingMarkers then None else x.company)
  {
    x.(project := if x.project.Some? && x.project.value in MissingMarkers then None else x.project,
       company := if x.company.Some? && x.company.value in MissingMarkers then None else x.company)
  }

  /** No field of the record is a missing-value string. */
  predicate Unmarked(x: Record)
  {
    x.user !in MissingMarkers
    && (x.project.Some? ==> x.project.value !in MissingMarkers)
    && (x.company.Some? ==> x.company.value !in MissingMarkers)
  }

  /** Reading one written record cell by cell gives the written cells of what reading keeps. */
  lemma ReadEncodedRecord(x: Record)
    requires x.user !in MissingMarkers
    ensures forall j :: 0 <= j < 5 ==> ReadCell(EncodeRecord(x)[j]) == EncodeRecord(Forget(x))[j]
  {
  }

  /** Writing records out and reading them back through `read_excel` gives each record with
      its missing-value strings forgotten, as long as no user is such a string. */
  lemma ReadExcelEncoded(rs: seq<Record>)
    requires forall i :: 0 <= i < |rs| ==> rs[i].user !in MissingMarkers
    ensures ReadRecords(ReadExcel(Encode(rs))) == Success(seq(|rs|, i requires 0 <= i < |rs| => Forget(rs[i])))
  {
    var kept := seq(|rs|, i requires 0 <= i < |rs| => Forget(rs[i]));
    var t, r := Encode(rs), ReadExcel(Encode(rs));
    forall i | 0 <= i < |rs| ensures r.rows[i] == Encode(kept).rows[i] {
      ReadEncodedRecord(rs[i]);
    }
    assert r == Encode(kept);
    ReadEncoded(kept);
  }

  /** For records without missing-value strings, writing and reading back through
      `read_excel` gives back the same records. */
  lemma ReadExcelRoundTrip(rs: seq<Record>)
    requires forall i :: 0 <= i < |rs| ==> Unmarked(rs[i])
    ensures ReadRecords(ReadExcel(Encode(rs))) == Success(rs)
  {
    ReadExcelEncoded(rs);
    assert seq(|rs|, i requires 0 <= i < |rs| => Forget(rs[i])) == rs;
  }

  /** A user that is a missing-value string is read as an empty cell, which is not a user. */
  lemma MarkedUserFails(x: Record)
    requires x.user in MissingMarkers
    ensures ReadRecords(ReadExcel(Encode([x]))) == Failure(MalformedCell(UserColumn, 0))
  {
    EncodedLayout([x]);
    var r := ReadExcel(Encode([x]));
    assert r.columns == RecordColumns;
    assert ColumnIndex(r, UserColumn) == Some(0);
    assert FindLayout(r, 0) == Success(Layout(0, 1, 2, 3, 4));
    assert r.rows[0][0] == Blank;
  }

  /** The sum across one row: numbers add up, empty cells are skipped. */
  function RowSum(row: seq<Cell>): real
  {
    if row == [] then 0.0 else (if row[0].Number? then row[0].x else 0.0) + RowSum(row[1..])
  }

  const RowSumColumn: string := "RowSum"

  /** The row-sum script: each row's sum is taken over the row as it stands, then put
      into a 'RowSum' column, appended at the end or overwriting an existing one. */
  function WithRowSum(t: Table): (r: Table)
    requires WellFormed(t)
    ensures WellFormed(r) && |r.rows| == |t.rows|
    ensures forall name :: name in r.columns <==> name in t.columns || name == RowSumColumn
  {
    match ColumnIndex(t, RowSumColumn)
    case None =>
      Table(t.columns + [RowSumColumn], seq(|t.rows|, i requires 0 <= i < |t.rows| => t.rows[i] + [Number(RowSum(t.rows[i]))]))
    case Some(k) =>
      Table(t.columns, seq(|t.rows|, i requires 0 <= i < |t.rows| =>
        t.rows[i][k := Number(RowSum(t.rows[i]))]))
  }

  /** Every original column keeps its cells, and the 'RowSum' cell of each row is the sum of
      that row as read; every column stays where it was. */
  lemma WithRowSumSpec(t: Table, i: nat, name: string)
    requires WellFormed(t) && i < |t.rows|
    ensures name != RowSumColumn ==> Lookup(WithRowSum(t), i, name) == Lookup(t, i, name)
    ensures Lookup(WithRowSum(t), i, RowSumColumn) == Some(Number(RowSum(t.rows[i])))
    ensures name in t.columns ==> ColumnIndex(WithRowSum(t), name) == ColumnIndex(t, name)
  {
    var r := WithRowSum(t);
    if RowSumColumn !in t.columns {
      if name in t.columns {
        var j := FirstIndex(t.columns, name);
        assert FirstIndex(r.columns, name) == j by { FirstIndexOfPrefix(r.columns, |t.columns|, name); assert r.columns[..|t.columns|] == t.columns; }
      }
      assert r.columns[|t.columns|] == RowSumColumn;
      assert FirstIndex(r.columns, RowSumColumn) == |t.columns|;
    }
  }
}
