# ExcelWebapp: the spreadsheet processing core in Dafny

ExcelWebapp is a small Flask service. It takes an uploaded spreadsheet and applies one of two
scripts, then hands back the result as `processed_files/<name>.xlsx`:

- **script1** adds a `RowSum` column holding each row's sum.
- **script2** writes one sheet per user. It groups that user's hours by (Month-Year, Project)
  and gives each group's share of its month as `Percentage`, formatted `0.00%`. Each sheet is
  named after the user and the user's companies ('Spółka (user field)'), cut to 31 characters.

An unknown script name raises an error and produces no file.

This project models `process_excel` (app.py:17-83) starting from the stored sheet, whose cells
arrive already typed. Of the reading step, it models how `read_excel` turns missing-value
strings into empty cells. It proves what the code promises.

| module | file | models |
|---|---|---|
| `Wrappers` | wrappers.dfy | `Option` (missing values) and `Result` (errors) |
| `Collections` | collections.dfy | `unique`: distinct values in first-seen order |
| `Strings` | strings.dfy | Python's string `<`, `sorted`, `join`, `split` and slicing |
| `Timesheet` | timesheet.dfy | records, the `%b-%y` month label, the placeholder project, group keys, per-user filtering and hour sums |
| `Grouping` | grouping.dfy | the summary of one user: grouped sums, percentages, and their laws |
| `SheetNames` | sheetnames.dfy | the sheet name built from the user and the company values |
| `Tables` | tables.dfy | the input table, how script2 reads its five columns, and script1's row sum |
| `Processing` | processing.dfy | the script choice, the user loop, the percentage-format loop, the output path |

The grouping, sums and sheet names are pure functions with lemmas, as pandas expression chains
are. The two loops of the source are methods with loop invariants:

- `SummarizeByUser` is the loop over users, proved against the function `UserSheet`.
- `FormatColumn` is the loop over rows that sets `number_format`.

`ProcessExcel` is a method that reads the sheet and routes to one script. For script2 it calls
`WriteSummary`, the writer block, which calls `SummarizeByUser`.

Behaviour of the code worth knowing:

- **Missing-value strings.** Empty `Project` cells become "BRAK WYBRANEGO PROJEKTU". So do
  project strings such as "NA", "None", "null" or "n/a", because `read_excel` reads all
  of pandas' default missing-value strings as NaN (`Tables.ReadExcel`). Hence no summary row
  carries an empty project (`Processing.WrittenProjectsNamed`). The same reading drops such
  strings from the company values.
- **Percentage range.** Percentages are guaranteed to lie in [0, 1] when no hours are negative
  (`Grouping.PercentagesInUnitRange`). With negative hours they may fall outside, though not
  always: a month of -1 and -3 hours still gives 0.25 and 0.75.
- **Zero month total.** For a month whose total is zero, the division gives NaN (written as an
  empty cell) when the row's own total is zero. Otherwise it gives plus or minus infinity,
  written as "inf" or "-inf" (`Processing.PercentageCell`).
- **Row order.** Rows come in the string order of "Mon-YY" labels ("Apr-24" before "Jan-24").
  This is alphabetical, not chronological.
- **Years a century apart.** The two-digit year merges years a century apart into one group
  (`Timesheet.MonthLabelsEqual`).
- **Read before choice.** The script name is checked only after the file is read, so a
  reading error wins over an unknown name. The model starts from the read table, so this
  ordering lies outside it.
- **Nothing written.** A table with a 'User' column but no rows writes no sheet, and the
  workbook cannot be saved (`NoSheetToSave`). The same save failure replaces any error raised
  before the first sheet is written. That covers a missing 'User' column, a missing loop column
  and a bad cell of the first user. The writer is closed on the way out, and saving a workbook
  without sheets raises in place of the original error
  (`Processing.SummaryWorkbookFailures`).

## Model

| member | source | states |
|---|---|---|
| `Collections.Distinct` | app.py:28 | the distinct users hold each value of the input exactly once and nothing else |
| `Collections.DistinctIsFirstSeenOrder` | app.py:28 | distinct values come out in the order of their first occurrence |
| `Strings.Sort` | app.py:55 | `sorted` returns a non-decreasing permutation of its input |
| `Strings.SortDistinct` | app.py:55 | sorting distinct strings gives a strictly increasing list of exactly those strings |
| `Strings.StrictlyIncreasingUnique` | app.py:55 | a strictly increasing list is determined by its set of strings |
| `Strings.LexTotal` | app.py:39-43 | Python string order is total: any two different strings are ordered |
| `Strings.LexTransitive` | app.py:39-43 | Python string order is transitive |
| `Strings.SplitJoin` | app.py:55 | splitting a `_`-join at `_` gives back the parts when no part contains `_` |
| `Strings.Truncate` | app.py:59 | the slice `[:n]` has length min(len, n) and is a prefix of the string |
| `Timesheet.MonthLabel` | app.py:36 | the label is three letters of the month, '-', then the two digits of the year modulo 100 |
| `Timesheet.MonthLabelsEqual` | app.py:36 | two dates share a label exactly when month and year modulo 100 agree |
| `Timesheet.ProjectLabel` | app.py:33 | a missing project becomes "BRAK WYBRANEGO PROJEKTU", a present one is kept |
| `Timesheet.KeyTotal` | app.py:39-43 | the (Month-Year, Project) order is total |
| `Timesheet.KeyTransitive` | app.py:39-43 | the (Month-Year, Project) order is transitive |
| `Timesheet.ForUser` | app.py:30 | the user's rows are input rows with that user, and every such row is among them |
| `Timesheet.ForUserSpec` | app.py:30 | the filter keeps each row with that user as often as the input has it and no other row, in input order, and its hours are that user's hours |
| `Timesheet.HoursForAtMostMonth` | app.py:47-48 | with no negative hours, a group's hours are between 0 and its month's hours |
| `Grouping.InsertTotals` | app.py:39-44 | adding a record's hours raises its key's, its month's and the grand total by those hours and no other key's |
| `Grouping.InsertKeys` | app.py:39-44 | adding a record adds its key and no other to the groups |
| `Grouping.InsertIncreasing` | app.py:39-43 | adding a record keeps the groups in strictly increasing key order |
| `Grouping.GroupByKeySpec` | app.py:39-44 | groups are exactly the keys occurring, in strictly increasing order, with totals equal to the records' hours per key, per month and overall |
| `Grouping.TotalForOwnKey` | app.py:39-44 | with unique keys, a key's total is its own group's total |
| `Grouping.Share` | app.py:48 | a share is defined exactly when the month total is non-zero, and times that total gives the part |
| `Grouping.SummaryRowAt` | app.py:39-48 | each row's key occurs, its Total Hours is the hours of exactly its records, its Percentage is that over its month's hours |
| `Grouping.SummaryRowsAreRecordSums` | app.py:39-48 | the same for all rows at once |
| `Grouping.SummaryCoversRecords` | app.py:30-44 | every record is counted in the row of its own key |
| `Grouping.MissingProjectCountsAsNoProject` | app.py:33 | a record without a project is counted under the placeholder in its month |
| `Grouping.SummaryKeysIncrease` | app.py:39-43 | rows are in strictly increasing (Month-Year, Project) order, so no key appears twice |
| `Grouping.SumHoursOfPercentages` | app.py:44-48 | adding percentages keeps the rows' hours |
| `Grouping.SummaryConservesHours` | app.py:39-44 | the Total Hours of a sheet add up to the user's hours |
| `Grouping.SharesOfMonth` | app.py:47-48 | a month's percentages add up to its share of the total over all groups |
| `Grouping.MonthPercentagesSumToOne` | app.py:47-48 | for a month with non-zero hours, its percentages add up to 1 |
| `Grouping.PercentageInUnitRangeAt` | app.py:47-48 | with no negative hours, one defined percentage lies in [0, 1] |
| `Grouping.PercentagesInUnitRange` | app.py:47-48 | with no negative hours, every defined percentage lies in [0, 1] |
| `Grouping.ProjectsAvoid` | app.py:33-44 | when no record's project and not the placeholder lie in a set of strings, no summary row's project does |
| `Grouping.JanuaryExample` | app.py:39-50 | projects of 5 and 15 hours in Jan-24 give rows at 0.25 and 0.75, in project order |
| `SheetNames.Present` | app.py:54 | only string values are kept, each value once when the input had no duplicates |
| `SheetNames.SortedCompaniesSpec` | app.py:53-55 | the sorted companies are the strictly increasing list of exactly the user's company strings, and no other list is |
| `SheetNames.SheetName` | app.py:59 | the name has at most 31 characters, is a prefix of the full name, equals it when that fits and has 31 characters otherwise |
| `SheetNames.JoinEmpty` | app.py:55-58 | a join is empty exactly when there is no part or one empty part |
| `SheetNames.NoCompanyMeansBareUser` | app.py:58 | a user without a string company value gets the bare user name |
| `SheetNames.CompaniesJoinedBehindUser` | app.py:55-58 | with a non-empty company string the name is user, '_', then the sorted companies joined with '_' |
| `SheetNames.SheetNameListsCompanies` | app.py:55-58 | splitting what follows "user_" gives back the sorted companies when none contains '_' |
| `Tables.ReadCell` | app.py:18 | a text cell holding a missing-value string is read as empty, every other cell as it stands |
| `Tables.ReadExcel` | app.py:18 | reading keeps the header and the shape and reads each cell, so no cell holds a missing-value string |
| `Tables.PlaceholderIsNotMissing` | app.py:18-33 | the placeholder project is not a missing-value string |
| `Tables.ColumnIndex` | app.py:67 | a column is found exactly when it exists, at a position holding its name |
| `Tables.FindLayout` | app.py:33-53 | the four columns of the loop are found when all exist; otherwise the missing one is reported |
| `Tables.DecodeRow` | app.py:30-53 | a row reads exactly when its user is a string, project a string or empty, date a date and hours a number or empty, as those cells |
| `Tables.DecodeRows` | app.py:28-53 | all rows read, one record each, or the error of a row that does not read, and only then |
| `Tables.ReadRecords` | app.py:28-53 | a missing 'User' column, or a missing loop column with rows present, is reported, and no rows need only 'User' |
| `Tables.ReadRecordsCells` | app.py:28-53 | each record holds the cells of its row |
| `Tables.ReadRecordsNamed` | app.py:18-53 | from a read sheet, no record's project or company is a missing-value string |
| `Tables.Encode` | app.py:18 | a table written from records is well formed |
| `Tables.ReadEncoded` | app.py:28-53 | decoding a table written from records gives back those records |
| `Tables.ReadExcelEncoded` | app.py:18-53 | writing records and reading them back through `read_excel` gives each record with a missing-value project or company turned missing, when no user is a missing-value string |
| `Tables.ReadExcelRoundTrip` | app.py:18-53 | records without missing-value strings come back unchanged through writing, `read_excel` and decoding |
| `Tables.MarkedUserFails` | app.py:18-30 | a user that is a missing-value string is read as an empty cell and the row does not read |
| `Tables.WithRowSum` | app.py:22 | the result is well formed, keeps the rows and has the old columns plus 'RowSum' |
| `Tables.WithRowSumSpec` | app.py:22 | every original column keeps its cells and position, and each row's 'RowSum' is that row's sum |
| `Processing.OutputPath` | app.py:26 | the path ends in name + ".xlsx" and lies in `processed_files/` unless the name is absolute |
| `Processing.PercentageCell` | app.py:48-62 | a percentage is written as its number; a zero-month cell is empty exactly for 0/0 |
| `Processing.SummaryTable` | app.py:50-62 | the sheet table has the four summary columns and one line per row |
| `Processing.PercentageColumnNumber` | app.py:67 | 'Percentage' is column 4, counted from 1 |
| `Processing.FormatColumn` | app.py:69-71 | rows 2 to n+1 of the column get "0.00%" and every other cell keeps its format |
| `Processing.FormattedIsPercentFormats` | app.py:69-71 | formats that cover exactly those cells with "0.00%" are the sheet's formats |
| `Processing.UsersSpec` | app.py:28-29 | each user with a record appears once, in the order of the user's first record |
| `Processing.UserSheetSpec` | app.py:53-62 | a user's sheet has a name of at most 31 characters cut from the full name and one line per summary row |
| `Processing.FormatsOnPercentagesOnly` | app.py:67-71 | formats sit on exactly the Percentage cells of the data rows, as "0.00%" |
| `Processing.UserSheetFormats` | app.py:67-71 | the same for the sheet written for a user |
| `Processing.OwnHoursOnce` | app.py:29-30 | with distinct users, a record's hours are counted under exactly one user |
| `Processing.HoursByUserCons` | app.py:29-30 | per-user sheet hours add up record by record |
| `Processing.SheetHoursOfUsers` | app.py:29-44 | over distinct users covering all records, the sheets' hours add up to all hours |
| `Processing.WorkbookConservesHours` | app.py:28-44 | the Total Hours of all sheets add up to the hours of all records |
| `Processing.SummarizeByUser` | app.py:28-71 | one sheet per distinct user, in first-seen order, each that user's sheet |
| `Processing.UserSheetProjectsAvoid` | app.py:33-62 | each 'Project' cell of a user's sheet is text outside any set that holds neither the placeholder nor a record's project |
| `Processing.SheetProjectsNamed` | app.py:33-62 | from a table without missing-value strings, every written 'Project' cell is text that is not one of them |
| `Processing.WrittenProjectsNamed` | app.py:18-62 | every 'Project' cell written from a read sheet is text that is neither empty nor a missing-value string |
| `Processing.SummaryWorkbookFailures` | app.py:27-73 | saving fails with no sheet exactly when 'User' or a loop column is missing, there are no rows, or a row of the first user does not read; any other error is a later user's bad cell, passed unchanged |
| `Processing.UserWorkbookSheets` | app.py:28-62 | with at least one record the loop leaves one sheet per user, in user order, each named in at most 31 characters |
| `Processing.LongUserName` | app.py:58-59 | a user without company strings and with an id over 31 characters gets its first 31 characters as sheet name |
| `Processing.TwoSheetsOneName` | app.py:26-62 | a readable table with two users whose names agree gives two sheets with one name |
| `Processing.SheetNamesCanCollide` | app.py:18-62 | two user ids that differ only in the 32nd character get two sheets of one name in the written workbook, and nothing detects it |
| `Processing.SummaryWorkbookSheets` | app.py:26-73 | a readable table with rows gives one sheet per user at the output path, each named in at most 31 characters |
| `Processing.WriteSummary` | app.py:26-73 | the writer block gives the per-user workbook, or the early-error save failure, or a later user's read error |
| `Processing.ProcessExcel` | app.py:17-83 | the sheet is read first; an unknown script then fails with no workbook, script1 writes the row-summed table as 'ProcessedData', and script2 writes the per-user workbook |

## Left out

- Flask routing, the upload form, saving the upload, `secure_filename`, `send_file` and the
  default name 'processed' (app.py:86-108): request plumbing and I/O.
- Creating the output folder (app.py:12-13), and writing, saving and closing the file: file
  system effects. The model returns the workbook as a value (path, sheets, cell formats).
- Reading the spreadsheet (app.py:18): the model starts from stored cells that already carry
  their types. Of `read_excel` it models only the default missing-value strings. Type
  inference and the rest of the file format are not modelled. Duplicate column names are
  renamed there, so `Tables.WellFormed` is a precondition.
- Date parsing and the locale of `%b` (app.py:36): dates arrive parsed as (year, month) and
  the month names are the English ones. The day is not kept, because no output depends on it.
  A date given as text is reported as a malformed cell rather than parsed.
- `Tables.DecodeRow`: an empty 'Date' cell is reported as malformed. pandas would instead drop
  that row from the grouping while still counting its user and company.
- `Tables.DecodeRow`: a number (or date) in 'Project' is reported as malformed. pandas keeps it
  as a project and sorts numbers before the string projects.
- `Tables.DecodeRow`: a number in 'Date' is reported as malformed. `pd.to_datetime` reads it as
  an offset from 1970 and gives a 1970 month.
- `Tables.DecodeRow`: a number in 'User' is reported as malformed. pandas gets the same kind of
  failure only when the user has no company string: `user[:31]` on a number then raises
  `TypeError`. With a company string, pandas names the sheet after the number and the suffix.
- `Tables.ReadRecords`: when several columns or cells are wrong, the model reports one of them.
  It does not necessarily report the one pandas trips over first while going user by user.
- Floating point: hours and percentages are `real`. Rounding, and the 1e-9 tolerance on the
  sum of percentages, are not modelled. The sum equals 1 exactly.
- Sheet-name collisions (app.py:59-62): when two users get one name, pandas writes both into
  the same worksheet. That is library behaviour and is not modelled.
  `Processing.SheetNamesCanCollide` shows the code does not prevent it.
- `Processing.SummaryWorkbookSheets`: openpyxl's sheet-title checks are not modelled, so the
  model reports success where the program raises. A name holding any of `\ / * ? : [ ]`
  (from a user id such as "A/B" or a company such as "A/S") makes the title setter raise
  `ValueError` at app.py:62, for the first user and for later ones alike. A name that differs
  from an earlier sheet's only in letter case is renamed by openpyxl with a "1" suffix, so
  `writer.sheets[sheet_name]` at app.py:66 raises `KeyError`.
- `Tables.RowSum`: only numbers are added, and other cells are skipped. Whether pandas skips,
  drops or fails on text columns depends on its version, so only numeric rows are meant.
- Partially written workbooks: after a bad cell of a later user, closing the writer saves the
  sheets written so far and the error propagates. The model returns the error and no workbook.
