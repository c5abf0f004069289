/** `process_excel`: choose a script, then either add a row-sum column to the sheet, or write
    one summary sheet per user, with the percentage cells formatted as `0.00%`. */
module Processing {
  import opened Wrappers
  import opened Collections
  import opened Timesheet
  import opened Grouping
  import opened SheetNames
  import opened Tables

  const ProcessedFolder: string := "processed_files"

  /** The output file: `name` with the ".xlsx" extension inside the output folder, joined by
      POSIX rules, so a name that starts with '/' is an absolute path and replaces the folder. */
  function OutputPath(name: string): (path: string)
    ensures |path| >= |name| + 5 && path[|path| - |name| - 5..] == name + ".xlsx"
    ensures (|name| > 0 && name[0] == '/') <==> !(|path| > |ProcessedFolder| && path[..|ProcessedFolder| + 1] == ProcessedFolder + "/")
    ensures (|name| > 0 && name[0] == '/') ==> path == name + ".xlsx"
  {
    if |name| > 0 && name[0] == '/' then
      var path := name + ".xlsx";
      assert path[0] == '/' && (ProcessedFolder + "/")[0] == 'p';
      path
    else ProcessedFolder + "/" + name + ".xlsx"
  }

  /** The four columns a summary sheet keeps, in this order. */
  const SummaryColumns: seq<string> := ["Month-Year", "Project", "Total Hours", "Percentage"]

  /** How `to_excel` writes a percentage: the number, or for a month whose total is zero what
      the float division gave: NaN (an empty cell) for 0/0, otherwise "inf" or "-inf". */
  function PercentageCell(row: SummaryRow): (c: Cell)
    ensures row.percentage.Some? <==> c.Number?
    ensures c.Number? ==> c.x == row.percentage.value
    ensures c.Blank? <==> row.percentage.None? && row.totalHours == 0.0
  {
    match row.percentage
    case Some(p) => Number(p)
    case None =>
      if row.totalHours == 0.0 then Blank
      else if row.totalHours > 0.0 then Text("inf")
      else Text("-inf")
  }

  function SummaryCells(row: SummaryRow): seq<Cell>
  {
    [Text(row.monthYear), Text(row.project), Number(row.totalHours), PercentageCell(row)]
  }

  /** One summary as the table `to_excel` writes: the four columns, one line per group. */
  function SummaryTable(rows: seq<SummaryRow>): (t: Table)
    ensures WellFormed(t) && t.columns == SummaryColumns && |t.rows| == |rows|
  {
    Table(SummaryColumns, seq(|rows|, i requires 0 <= i < |rows| => SummaryCells(rows[i])))
  }

  /** A worksheet cell, 1-based as in openpyxl. */
  datatype CellRef = CellRef(row: nat, column: nat)

  const PercentFormat: string := "0.00%"

  /** The position of 'Percentage' among the summary columns, counted from 1 as Excel does. */
  function PercentageColumnNumber(): (c: nat)
    ensures 1 <= c <= |SummaryColumns| && SummaryColumns[c - 1] == "Percentage"
    ensures c == 4
  {
    FirstIndex(SummaryColumns, "Percentage") + 1
  }

  /** The cell at a 1-based position of a written sheet; row 1 holds the column headers. */
  function WrittenCell(t: Table, c: CellRef): Option<Cell>
  {
    if c.column < 1 || c.column > |t.columns| then None
    else if c.row == 1 then Some(Text(t.columns[c.column - 1]))
    else if 2 <= c.row <= |t.rows| + 1 && c.column - 1 < |t.rows[c.row - 2]| then Some(t.rows[c.row - 2][c.column - 1])
    else None
  }

  /** The data rows 2 .. n+1 of `column`. */
  predicate InDataRows(c: CellRef, column: nat, n: nat)
  {
    c.column == column && 2 <= c.row <= n + 1
  }

  /** The loop over the written data rows: sets the number format of the cells
      in rows 2 .. n+1 of `column` and leaves every other cell's format as it was. */
  method FormatColumn(formats: map<CellRef, string>, column: nat, n: nat) returns (f: map<CellRef, string>)
    ensures forall c :: c in f <==> c in formats || InDataRows(c, column, n)
    ensures forall c :: c in f ==> f[c] == if InDataRows(c, column, n) then PercentFormat else formats[c]
  {
    f := formats;
    var rowNum := 2;
    while rowNum < n + 2
      invariant 2 <= rowNum <= n + 2
      invariant forall c :: c in f <==> c in formats || (c.column == column && 2 <= c.row < rowNum)
      invariant forall c :: c in f ==> f[c] == if c.column == column && 2 <= c.row < rowNum then PercentFormat else formats[c]
    {
      f := f[CellRef(rowNum, column) := PercentFormat];
      rowNum := rowNum + 1;
    }
  }

  /** The formats a summary sheet of `n` rows ends up with (`to_excel` sets none of its own). */
  function PercentFormats(n: nat): map<CellRef, string>
  {
    map r | 2 <= r <= n + 1 :: CellRef(r, PercentageColumnNumber()) := PercentFormat
  }

  lemma FormattedIsPercentFormats(f: map<CellRef, string>, n: nat)
    requires forall c :: c in f <==> InDataRows(c, PercentageColumnNumber(), n)
    requires forall c :: c in f ==> f[c] == PercentFormat
    ensures f == PercentFormats(n)
  {
    var g := PercentFormats(n);
    forall c ensures c in f <==> c in g {
      if c in g { assert InDataRows(c, PercentageColumnNumber(), n); }
    }
  }

  /** One written sheet: its name, its cells, and the number formats set on its cells. */
  datatype Sheet = Sheet(name: string, table: Table, formats: map<CellRef, string>)

  /** The output file: where it is written and its sheets in writing order. */
  datatype Workbook = Workbook(path: string, sheets: seq<Sheet>)

  /** The distinct users, as `unique` returns them. */
  function Users(rs: seq<Record>): seq<string>
  {
    Distinct(UserColumnOf(rs))
  }

  /** The sheet the loop writes for `user`: named from the user's companies, holding the
      user's summary, with the percentages formatted. */
  function UserSheet(rs: seq<Record>, user: string): Sheet
  {
    var mine := ForUser(rs, user);
    var summary := Summarize(mine);
    Sheet(SheetName(user, mine), SummaryTable(summary), PercentFormats(|summary|))
  }

  /** The `for user in users` loop: one sheet per distinct user, in first-seen order. */
  method SummarizeByUser(rs: seq<Record>) returns (sheets: seq<Sheet>)
    ensures |sheets| == |Users(rs)|
    ensures forall i :: 0 <= i < |sheets| ==> sheets[i] == UserSheet(rs, Users(rs)[i])
  {
    var users := Users(rs);
    sheets := [];
    var k := 0;
    while k < |users|
      invariant k <= |users| && |sheets| == k
      invariant forall i :: 0 <= i < k ==> sheets[i] == UserSheet(rs, users[i])
    {
      var user := users[k];
      var userData := ForUser(rs, user);
      var summary := Summarize(userData);
      var sheetName := SheetName(user, userData);
      var formats := FormatColumn(map[], PercentageColumnNumber(), |summary|);
      FormattedIsPercentFormats(formats, |summary|);
      sheets := sheets + [Sheet(sheetName, SummaryTable(summary), formats)];
      k := k + 1;
    }
  }

  /** The 'User' column. */
  function UserColumnOf(rs: seq<Record>): (us: seq<string>)
    ensures |us| == |rs| && forall i :: 0 <= i < |rs| ==> us[i] == rs[i].user
  {
    seq(|rs|, i requires 0 <= i < |rs| => rs[i].user)
  }

  predicate HasUser(rs: seq<Record>, u: string)
  {
    exists i :: 0 <= i < |rs| && rs[i].user == u
  }

  /** Each user that has a record appears exactly once, in the order of the user's first
      record. */
  lemma UsersSpec(rs: seq<Record>)
    ensures NoDuplicates(Users(rs))
    ensures forall u :: u in Users(rs) <==> HasUser(rs, u)
    ensures forall i, j :: 0 <= i < j < |Users(rs)| ==>
      FirstIndex(UserColumnOf(rs), Users(rs)[i]) < FirstIndex(UserColumnOf(rs), Users(rs)[j])
  {
    var us := UserColumnOf(rs);
    forall u ensures u in us <==> HasUser(rs, u) {
      if u in us { var i :| 0 <= i < |us| && us[i] == u; }
    }
    DistinctIsFirstSeenOrder(us);
  }

  /** The user of the first record is among the users. */
  lemma FirstUserListed(rs: seq<Record>)
    requires rs != []
    ensures rs[0].user in Users(rs)
  {
    UsersSpec(rs);
    assert HasUser(rs, rs[0].user);
  }

  /** The sheet of a user: a name of at most 31 characters cut from the full name, and one
      four-cell line per summary row. */
  lemma UserSheetSpec(rs: seq<Record>, u: string)
    ensures var s := UserSheet(rs, u); var summary := Summarize(ForUser(rs, u));
      |s.name| <= MaxSheetNameLength && s.name == FullSheetName(u, ForUser(rs, u))[..|s.name|]
      && s.table.columns == SummaryColumns && |s.table.rows| == |summary|
      && forall i :: 0 <= i < |summary| ==> s.table.rows[i] == SummaryCells(summary[i])
  {
  }

  /** The formats of a summary sheet sit on exactly the 'Percentage' cells of its data rows,
      each set to `0.00%`; the header and the other columns keep no format. */
  lemma FormatsOnPercentagesOnly(rows: seq<SummaryRow>)
    ensures var t, f := SummaryTable(rows), PercentFormats(|rows|);
      (forall c :: c in f <==>
        c.row >= 2 && WrittenCell(t, c).Some? && t.columns[c.column - 1] == "Percentage")
      && forall c :: c in f ==>
        f[c] == PercentFormat && WrittenCell(t, c) == Some(PercentageCell(rows[c.row - 2]))
  {
    var t, f := SummaryTable(rows), PercentFormats(|rows|);
    var col := PercentageColumnNumber();
    forall c ensures c in f <==> c.row >= 2 && WrittenCell(t, c).Some? && t.columns[c.column - 1] == "Percentage" {
      if c.row >= 2 && WrittenCell(t, c).Some? && t.columns[c.column - 1] == "Percentage" {
        assert c.column == col;
        assert c == CellRef(c.row, col) && 2 <= c.row <= |rows| + 1;
      }
    }
    forall c | c in f ensures WrittenCell(t, c) == Some(PercentageCell(rows[c.row - 2])) {
      assert InDataRows(c, col, |rows|);
      assert t.rows[c.row - 2] == SummaryCells(rows[c.row - 2]);
    }
  }

  /** The same for the sheet written for a user. */
  lemma UserSheetFormats(rs: seq<Record>, u: string)
    ensures var s := UserSheet(rs, u); var summary := Summarize(ForUser(rs, u));
      (forall c :: c in s.formats <==>
        c.row >= 2 && WrittenCell(s.table, c).Some? && s.table.columns[c.column - 1] == "Percentage")
      && forall c :: c in s.formats ==>
        s.formats[c] == PercentFormat && WrittenCell(s.table, c) == Some(PercentageCell(summary[c.row - 2]))
  {
    FormatsOnPercentagesOnly(Summarize(ForUser(rs, u)));
  }

  /** Sum of the summary hours over the sheets of users `us`. */
  function SheetHours(rs: seq<Record>, us: seq<string>): real
  {
    if us == [] then 0.0 else SumHours(Summarize(ForUser(rs, us[0]))) + SheetHours(rs, us[1..])
  }

  /** The hours of one record, counted once for each entry of `us` that is its user. */
  function OwnHours(x: Record, us: seq<string>): real
  {
    if us == [] then 0.0 else (if us[0] == x.user then x.hours else 0.0) + OwnHours(x, us[1..])
  }

  lemma {:induction false} OwnHoursOnce(x: Record, us: seq<string>)
    requires NoDuplicates(us)
    ensures OwnHours(x, us) == if x.user in us then x.hours else 0.0
  {
    if us != [] {
      OwnHoursOnce(x, us[1..]);
      if us[0] == x.user {
        assert x.user !in us[1..];
      }
    }
  }

  /** Summing the users' own hours user by user, record by record. */
  lemma {:induction false} HoursByUserCons(rs: seq<Record>, us: seq<string>)
    requires rs != []
    ensures SheetHours(rs, us) == OwnHours(rs[0], us) + SheetHours(rs[1..], us)
  {
    if us != [] {
      HoursByUserCons(rs, us[1..]);
      SummaryConservesHours(ForUser(rs, us[0]));
      SummaryConservesHours(ForUser(rs[1..], us[0]));
    }
  }

  lemma {:induction false} SheetHoursOfNothing(us: seq<string>)
    ensures SheetHours([], us) == 0.0
  {
    if us != [] {
      SheetHoursOfNothing(us[1..]);
      SummaryConservesHours([]);
    }
  }

  lemma {:induction false} SheetHoursOfUsers(rs: seq<Record>, us: seq<string>)
    requires NoDuplicates(us) && forall i :: 0 <= i < |rs| ==> rs[i].user in us
    ensures SheetHours(rs, us) == Hours(rs)
  {
    if rs == [] {
      SheetHoursOfNothing(us);
    } else {
      HoursByUserCons(rs, us);
      OwnHoursOnce(rs[0], us);
      SheetHoursOfUsers(rs[1..], us);
    }
  }

  /** Across the whole workbook, the 'Total Hours' of all sheets add up to the hours of all
      records. */
  lemma WorkbookConservesHours(rs: seq<Record>)
    ensures SheetHours(rs, Users(rs)) == Hours(rs)
  {
    UsersSpec(rs);
    forall i | 0 <= i < |rs| ensures rs[i].user in Users(rs) {
      assert HasUser(rs, rs[i].user);
    }
    SheetHoursOfUsers(rs, Users(rs));
  }

  const ProcessedDataSheet: string := "ProcessedData"

  /** The error the caller sees for a read error `e`: one raised before the first sheet is
      written gives way to the failure to save an empty workbook. */
  function Reported(t: Table, e: Error): Error
    requires WellFormed(t)
  {
    if e.MissingColumn? || FirstUserFails(t) then NoSheetToSave else e
  }

  /** What the per-user branch produces from a table: an error, or the workbook. A table with
      no user leaves the writer without a sheet, which cannot be saved. */
  function SummaryWorkbook(t: Table, newFileName: string): Result<Workbook, Error>
    requires WellFormed(t)
  {
    match ReadRecords(t)
    case Failure(e) => Failure(Reported(t, e))
    case Success(rs) => UserWorkbook(rs, newFileName)
  }

  /** The workbook the user loop leaves behind for the records `rs`: a sheet per user, or the
      save failure when there is no user. */
  function UserWorkbook(rs: seq<Record>, newFileName: string): Result<Workbook, Error>
  {
    var users := Users(rs);
    if users == [] then Failure(NoSheetToSave)
    else Success(Workbook(OutputPath(newFileName), seq(|users|, i requires 0 <= i < |users| => UserSheet(rs, users[i]))))
  }

  /** With at least one record the loop leaves one sheet per user, in the order of the users,
      each named in at most 31 characters. */
  lemma UserWorkbookSheets(rs: seq<Record>, newFileName: string)
    requires rs != []
    ensures var w := UserWorkbook(rs, newFileName);
      w.Success? && w.value.path == OutputPath(newFileName) && |w.value.sheets| == |Users(rs)|
      && forall i :: 0 <= i < |w.value.sheets| ==>
        w.value.sheets[i] == UserSheet(rs, Users(rs)[i]) && |w.value.sheets[i].name| <= MaxSheetNameLength
  {
    FirstUserListed(rs);
  }

  /** No sheet is written, so saving fails, exactly when the table has no 'User' column, has
      no rows, lacks one of the four other columns, or has a bad cell in a row of its first
      user. Any other read error is a bad cell of a later user, passed on unchanged. */
  lemma SummaryWorkbookFailures(t: Table, newFileName: string)
    requires WellFormed(t)
    ensures SummaryWorkbook(t, newFileName) == Failure(NoSheetToSave) <==>
      (UserColumn !in t.columns || t.rows == [] || ProjectColumn !in t.columns || DateColumn !in t.columns
       || HoursColumn !in t.columns || CompanyColumn !in t.columns || FirstUserFails(t))
    ensures ReadRecords(t).Failure? && SummaryWorkbook(t, newFileName) != Failure(NoSheetToSave) ==>
      SummaryWorkbook(t, newFileName) == Failure(ReadRecords(t).error) && ReadRecords(t).error.MalformedCell?
  {
    var read := ReadRecords(t);
    if read.Success? && t.rows != [] {
      var rs := read.value;
      UsersSpec(rs);
      assert HasUser(rs, rs[0].user);
      assert rs[0].user in Users(rs);
      var u := ColumnIndex(t, UserColumn).value;
      var l := FindLayout(t, u).value;
      assert !FirstUserFails(t);
    }
    if read.Failure? && !read.error.MissingColumn? {
      var u := ColumnIndex(t, UserColumn).value;
      var l := FindLayout(t, u).value;
      var k :| 0 <= k < |t.rows| && DecodeRow(t.rows[k], l, k) == Failure(read.error);
    }
  }

  /** A readable table with rows gives one sheet per user, in the order of the users, each
      named in at most 31 characters. */
  lemma SummaryWorkbookSheets(t: Table, newFileName: string)
    requires WellFormed(t) && ReadRecords(t).Success? && t.rows != []
    ensures var rs, w := ReadRecords(t).value, SummaryWorkbook(t, newFileName);
      w.Success? && w.value.path == OutputPath(newFileName) && |w.value.sheets| == |Users(rs)|
      && forall i :: 0 <= i < |w.value.sheets| ==>
        w.value.sheets[i] == UserSheet(rs, Users(rs)[i]) && |w.value.sheets[i].name| <= MaxSheetNameLength
  {
    UserWorkbookSheets(ReadRecords(t).value, newFileName);
  }

  /** A user's sheet names no project from `excluded` when neither the placeholder nor any
      record's project is in it. */
  lemma UserSheetProjectsAvoid(rs: seq<Record>, u: string, excluded: set<string>)
    requires NoProject !in excluded
    requires forall i :: 0 <= i < |rs| && rs[i].project.Some? ==> rs[i].project.value !in excluded
    ensures var rows := UserSheet(rs, u).table.rows;
      forall i :: 0 <= i < |rows| ==> |rows[i]| == 4 && rows[i][1].Text? && rows[i][1].s !in excluded
  {
    var mine := ForUser(rs, u);
    forall j | 0 <= j < |mine| && mine[j].project.Some? ensures mine[j].project.value !in excluded {
      assert mine[j] in mine;
    }
    ProjectsAvoid(mine, excluded);
    UserSheetSpec(rs, u);
  }

  /** Every 'Project' cell the summary writes from a sheet without missing-value strings is
      text that is not one of them. */
  lemma SheetProjectsNamed(t: Table, newFileName: string)
    requires WellFormed(t) && MarkersRead(t) && SummaryWorkbook(t, newFileName).Success?
    ensures var sheets := SummaryWorkbook(t, newFileName).value.sheets;
      forall k, i :: 0 <= k < |sheets| && 0 <= i < |sheets[k].table.rows| ==>
        |sheets[k].table.rows[i]| == 4 && sheets[k].table.rows[i][1].Text? && sheets[k].table.rows[i][1].s !in MissingMarkers
  {
    PlaceholderIsNotMissing();
    var rs := ReadRecords(t).value;
    ReadRecordsNamed(t);
    SummaryWorkbookSheets(t, newFileName);
    forall k | 0 <= k < |Users(rs)| ensures
      var rows := UserSheet(rs, Users(rs)[k]).table.rows;
      forall i :: 0 <= i < |rows| ==> |rows[i]| == 4 && rows[i][1].Text? && rows[i][1].s !in MissingMarkers
    {
      UserSheetProjectsAvoid(rs, Users(rs)[k], MissingMarkers);
    }
  }

  /** Every 'Project' cell the summary writes from a read sheet is a real name: the
      placeholder or a project string, never empty and never one of the missing-value strings. */
  lemma WrittenProjectsNamed(t: Table, newFileName: string)
    requires WellFormed(t) && SummaryWorkbook(ReadExcel(t), newFileName).Success?
    ensures var sheets := SummaryWorkbook(ReadExcel(t), newFileName).value.sheets;
      forall k, i :: 0 <= k < |sheets| && 0 <= i < |sheets[k].table.rows| ==>
        |sheets[k].table.rows[i]| == 4 && sheets[k].table.rows[i][1].Text? && sheets[k].table.rows[i][1].s !in MissingMarkers
  {
    SheetProjectsNamed(ReadExcel(t), newFileName);
  }

  /** The `with pd.ExcelWriter(...)` block of the per-user script, on a read table. */
  method WriteSummary(data: Table, newFileName: string) returns (r: Result<Workbook, Error>)
    requires WellFormed(data)
    ensures r == SummaryWorkbook(data, newFileName)
  {
    var read := ReadRecords(data);
    if read.Failure? {
      // closing the writer after an early error raises in place of that error
      r := Failure(Reported(data, read.error));
    } else {
      var sheets := SummarizeByUser(read.value);
      var users := Users(read.value);
      assert sheets == seq(|users|, i requires 0 <= i < |users| => UserSheet(read.value, users[i]));
      if sheets == [] {
        r := Failure(NoSheetToSave);
      } else {
        r := Success(Workbook(OutputPath(newFileName), sheets));
      }
    }
  }

  /** Two user ids that differ only in their 32nd character, one record each. */
  const CollidingRecords: seq<Record> :=
    [Record("ABCDEFGHIJKLMNOPQRSTUVWXYZabcde1", Some("Migration"), Date(2024, 1), 1.0, None),
     Record("ABCDEFGHIJKLMNOPQRSTUVWXYZabcde2", Some("Migration"), Date(2024, 1), 1.0, None)]

  lemma CollidingUsers()
    ensures Users(CollidingRecords) == [CollidingRecords[0].user, CollidingRecords[1].user]
    ensures CollidingRecords[0].user != CollidingRecords[1].user
  {
    var rs := CollidingRecords;
    assert rs[0].user[31] != rs[1].user[31];
    assert UserColumnOf(rs) == [rs[0].user, rs[1].user];
    assert UserColumnOf(rs)[..1] == [rs[0].user];
    assert Distinct([rs[0].user]) == [rs[0].user] by {
      assert [rs[0].user][..0] == [];
    }
  }

  lemma UserSheetName(rs: seq<Record>, u: string)
    ensures UserSheet(rs, u).name == SheetName(u, ForUser(rs, u))
  {
  }

  /** A user without companies whose id is longer than 31 characters gets the first 31 of
      them as sheet name. */
  lemma LongUserName(u: string, rs: seq<Record>)
    requires |u| > MaxSheetNameLength && forall s :: !HasCompany(rs, s)
    ensures SheetName(u, rs) == u[..MaxSheetNameLength]
  {
    NoCompanyMeansBareUser(u, rs);
  }

  lemma CollidingNames()
    ensures SheetName(CollidingRecords[0].user, ForUser(CollidingRecords, CollidingRecords[0].user))
         == SheetName(CollidingRecords[1].user, ForUser(CollidingRecords, CollidingRecords[1].user))
  {
    var rs := CollidingRecords;
    var u1, u2 := rs[0].user, rs[1].user;
    LongUserName(u1, ForUser(rs, u1));
    LongUserName(u2, ForUser(rs, u2));
    assert u1[..31] == u2[..31];
  }

  lemma CollidingRecordsUnmarked()
    ensures forall i :: 0 <= i < |CollidingRecords| ==> Unmarked(CollidingRecords[i])
  {
    var rs := CollidingRecords;
    LongIsNotMissing(rs[0].user);
    LongIsNotMissing(rs[1].user);
    LongIsNotMissing("Migration");
  }

  lemma CollidingRecordsRead()
    ensures ReadRecords(ReadExcel(Encode(CollidingRecords))) == Success(CollidingRecords)
  {
    CollidingRecordsUnmarked();
    ReadExcelRoundTrip(CollidingRecords);
  }

  /** A readable table with two users whose sheet names agree gives a workbook of two
      sheets with one name. */
  lemma TwoSheetsOneName(t: Table, newFileName: string, rs: seq<Record>)
    requires WellFormed(t) && ReadRecords(t) == Success(rs) && |rs| == 2
    requires Users(rs) == [rs[0].user, rs[1].user]
    requires SheetName(rs[0].user, ForUser(rs, rs[0].user)) == SheetName(rs[1].user, ForUser(rs, rs[1].user))
    ensures var w := SummaryWorkbook(t, newFileName);
      w.Success? && |w.value.sheets| == 2 && w.value.sheets[0].name == w.value.sheets[1].name
  {
    SummaryWorkbookSheets(t, newFileName);
    UserSheetName(rs, rs[0].user);
    UserSheetName(rs, rs[1].user);
  }

  /** Two users whose ids differ only after the 31st character get one sheet name, and the
      loop writes both sheets under it without noticing. */
  lemma SheetNamesCanCollide()
    ensures var w := SummaryWorkbook(ReadExcel(Encode(CollidingRecords)), "out");
      CollidingRecords[0].user != CollidingRecords[1].user
      && w.Success? && |w.value.sheets| == 2 && w.value.sheets[0].name == w.value.sheets[1].name
  {
    CollidingRecordsRead();
    CollidingUsers();
    CollidingNames();
    TwoSheetsOneName(ReadExcel(Encode(CollidingRecords)), "out", CollidingRecords);
  }

  /** `process_excel` on the stored sheet: it is read first, then handed to the chosen
      script. */
  method ProcessExcel(t: Table, scriptChoice: string, newFileName: string) returns (r: Result<Workbook, Error>)
    requires WellFormed(t)
    ensures scriptChoice != "script1" && scriptChoice != "script2" ==> r == Failure(UnsupportedScriptChoice)
    ensures scriptChoice == "script1" ==>
      r == Success(Workbook(OutputPath(newFileName), [Sheet(ProcessedDataSheet, WithRowSum(ReadExcel(t)), map[])]))
    ensures scriptChoice == "script2" ==> r == SummaryWorkbook(ReadExcel(t), newFileName)
  {
    var data := ReadExcel(t);
    if scriptChoice == "script1" {
      var summed := WithRowSum(data);
      r := Success(Workbook(OutputPath(newFileName), [Sheet(ProcessedDataSheet, summed, map[])]));
    } else if scriptChoice == "script2" {
      r := WriteSummary(data, newFileName);
    } else {
      r := Failure(UnsupportedScriptChoice);
    }
  }
}
