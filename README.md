# Fundementals: indicator persistence and its SQLite storage layer

This project models the core of the Fundementals repository. There are ten fundamental stock
indicators, among them price to earnings, earnings per share and dividend yield. Each one takes
one or two inputs and computes a percent. Each one also has the code to record today's inputs
in a shared SQLite table named "Fundementals". Only price to earnings ever runs that code: the
other nine set their database before calling the base constructor, which resets it to None
(`Fundementals.Fundemental.constructor`). The model covers four things:

- the null guards of each `calculatePercent`;
- the constructors and `_update`, which decide whether an indicator persists at all;
- the date-keyed reconciliation that every `_updateDatabase` performs. There are ten copies that
  differ only in their column names, so the model has one generic `Upsert`;
- the storage layer in `database.py`: columns and their declaration text, the CREATE statement,
  and the rules for creating, deleting and looking up tables and database files.

The model has six modules:

- `Results`: `Option`, `Result` and the exceptions the code raises.
- `Frames`: an in-memory table snapshot, the shape a pandas DataFrame has when it is read from or
  written to a relation. It holds distinct column names and rows that map each column to a cell;
  a cell is the missing marker, a text or a number.
- `Storage` (`database.py`):
  - `Column` is a class, because the CREATE loop compares columns by identity.
  - A `Database` object holds the catalog, a map from table name to snapshot.
  - The file system is a `FileSystem` object holding a set of paths. The static
    `Database.exist/create/delete` receive it as a parameter.
- `Reconcile`: the generic reconciliation of one stored snapshot with the one-row observation
  for `today`.
- `Fundementals` (`fundementals.py`):
  - the ten indicators as a `MetricKind`, and the abstract percent;
  - the column layout of each observation and of the created table;
  - the table invariant `Shaped`, `_updateDatabase` as a method, and the `Fundemental` class.
    Its constructor models the `_db` assignments, and its `Update` models `_update`.
- `Scenarios`: two concrete reconciliations on the price to earnings columns.

The reconciliation chooses its branch from two tests:

- Is some stored row's date text exactly `today`?
- Do the stored columns cover the observation's columns?

It then appends (`concat`), overwrites every row keyed by today (`loc`), or joins on the date
(`merge`). `merge(data, newData, on='Date')` uses pandas' default `how='inner'`, so rows keyed by
any other date are dropped (`Reconcile.MergeDropsOtherDates`).

The join branch needs the two sides to share no column but the key. Otherwise pandas would
rename columns with `_x`/`_y`. The model states this need as an invariant of the shared table and
proves that the indicators keep it:

- Each indicator's columns form a group that no other indicator shares.
- `Shaped`: the table's columns hold each group whole or not at all.
- Creating the table and each reconciliation keep `Shaped`.

On a shaped table the join only ever brings columns the table lacks entirely. A table already
stored in a file is assumed shaped; see "Left out".

## Model

| member | source | states |
|---|---|---|
| Frames.Union | fundementals.py:84 | the column union `concat` forms: its set is the union of both sides, it starts with the stored columns in their order, and it has no repeated name when neither side has one |
| Frames.PadExact | fundementals.py:84 | laying out a row on exactly the columns it already has leaves the row unchanged |
| Frames.UnionCovered | fundementals.py:84 | uniting with columns that are all present already changes no column |
| Reconcile.Concat | fundementals.py:83-84 | the append branch keeps the frame well formed, keeps the stored columns first, unites the column sets, and adds exactly one row |
| Reconcile.ConcatCells | fundementals.py:83-84 | after the append, the earlier rows keep every cell they had, the new last row holds the observation's cells, and every cell a side lacks is the missing marker |
| Reconcile.Overwrite | fundementals.py:79-80 | the overwrite branch leaves the column list and the row count unchanged and keeps the frame well formed |
| Reconcile.OverwriteCells | fundementals.py:74-80 | every row keyed by today, not only the first, takes the observation's value in each of the observation's columns, a missing input included; every other cell of every row is unchanged |
| Reconcile.Matching | fundementals.py:76 | the stored rows keyed by today: exactly the stored rows with that date, and strictly fewer than all of them when some row has another date |
| Reconcile.MatchingCounts | fundementals.py:76-78 | each stored row keyed by today is kept as many times as it is stored, duplicates included, and no other row is kept; so the join has exactly one row per stored row keyed by today |
| Reconcile.MergeOnDate | fundementals.py:77-78 | the join keeps the frame well formed, keeps the stored columns first, unites the column sets, and has as many rows as `Matching` keeps, which `MatchingCounts` counts: one per stored row keyed by today |
| Reconcile.MergeCells | fundementals.py:77-78 | every joined row is keyed by today and is a stored row keyed by today, extended by the observation's cells |
| Reconcile.Upsert | fundementals.py:76-84 | reading `data['Date']` raises KeyError exactly when the stored frame has no date column; otherwise the result is well formed, its columns are the union of both sides, and its row count is one more (append), the same (overwrite) or the number of rows keyed by today (join) |
| Reconcile.OverwriteAgreeing | fundementals.py:80 | overwriting rows that already hold the observation's values returns the frame unchanged |
| Reconcile.SettledIsFixed | fundementals.py:76-80 | on a frame that has the key, a row for today, all the observation's columns and the observation's values in every row for today, the overwrite branch is taken and changes nothing |
| Reconcile.UnionCovers | fundementals.py:78-84 | a frame whose columns unite the stored and observed ones has the key and every observed column |
| Reconcile.AppendedAgrees | fundementals.py:83-84 | after the append, the frame is settled, and no earlier row is keyed by today: the only row keyed by today is the new one, and it holds the observation |
| Reconcile.OverwrittenAgrees | fundementals.py:79-80 | after the overwrite, the frame is settled |
| Reconcile.MergedAgrees | fundementals.py:77-78 | after the join, the frame is settled |
| Reconcile.MergedKeepsToday | fundementals.py:77-78 | when some stored row is keyed by today, the join is not empty and its first row is keyed by today |
| Reconcile.MergedRowsAgree | fundementals.py:77-78 | every joined row holds the observation's values |
| Reconcile.UpsertSettles | fundementals.py:76-84 | whichever branch runs, the result is settled |
| Reconcile.UpsertIdempotent | fundementals.py:76-87 | upserting the same observation twice gives the snapshot the first upsert gave: the second call always takes the overwrite branch and changes nothing |
| Reconcile.MatchingAtMostOne | fundementals.py:76 | when the stored dates are unique, at most one row is keyed by today |
| Reconcile.UpsertKeepsDatesUnique | fundementals.py:76-84 | when the stored dates are unique, they are unique after the reconciliation, whatever the branch |
| Reconcile.AppendKeepsDatesUnique | fundementals.py:83-84 | appending a row for a date no stored row has keeps the dates unique |
| Reconcile.OverwriteKeepsDatesUnique | fundementals.py:79-80 | the overwrite leaves every row's date cell as it was, and so keeps the dates unique |
| Reconcile.MergeDropsOtherDates | fundementals.py:77-78 | the inner join drops every stored row with another date: when one exists, the snapshot written back is shorter, and all its rows are keyed by today |
| Fundementals.PercentMissingIffInputMissing | fundementals.py:53 | the guarded indicators return a missing percent exactly when some input is missing (also at lines 196, 268, 333, 397, 462, 526, 590, 654); price to earnings growth never returns one |
| Fundementals.PercentErrors | fundementals.py:124-125 | the call raises exactly when price to earnings growth meets a missing input (a TypeError on None), or when all inputs are present and the divisor is zero; return on equity and price to sales never divide by zero |
| Fundementals.PercentPresent | fundementals.py:55 | with all inputs present and no exception, the percent exists and is computed by that indicator from exactly those input values |
| Fundementals.ObservationStartsWithKey | fundementals.py:74 | every observation starts with the date column and has one or two columns of its own |
| Fundementals.OwnerOf | fundementals.py:74 | each observation column is the date or belongs to the observing indicator, so the indicators' column groups are pairwise disjoint |
| Fundementals.GroupOwner | fundementals.py:74 | each of an indicator's own columns belongs to that indicator and is not the date |
| Fundementals.ObservationDistinct | fundementals.py:74 | the observation's column names are distinct |
| Fundementals.ObservationRowKeys | fundementals.py:74 | the observation's row has exactly the observation's columns and today's date in the date column |
| Fundementals.ObservationIsObservation | fundementals.py:74 | `newData` is a well-formed one-row frame keyed by today |
| Fundementals.SchemaOrder | fundementals.py:131-135 | the created table lists the observation's columns in the same order exactly when the indicator is neither price to earnings growth (lines 131-135 against 144) nor earnings per share (lines 203-207 against 216); for those two, its two columns of its own are swapped |
| Fundementals.SchemaHoldsObservation | fundementals.py:61-65 | the created table's column names are distinct, include the date, and are exactly the observation's columns |
| Fundementals.ShapedIsMergeReady | fundementals.py:77-78 | on a shaped table, the join branch brings only columns the table lacks entirely, so the two sides share only the date |
| Fundementals.UnionKeepsShaped | fundementals.py:78-84 | adding one indicator's columns to a shaped table leaves it shaped |
| Fundementals.SchemaIsShaped | fundementals.py:61-65 | the freshly created table is shaped |
| Fundementals.Stored | fundementals.py:60-71 | what the indicator reads back is well formed and shaped; when the table was absent it is the empty table with a date column |
| Fundementals.Recorded | fundementals.py:57-87 | the snapshot written back is well formed and shaped; the block raises exactly when the stored table exists without a date column |
| Fundementals.RecordedFromRead | fundementals.py:68-80 | the snapshot read meets the reconciliation's preconditions, and reconciling it gives what `Recorded` describes |
| Fundementals.UpdateDatabase | fundementals.py:57-87 | `_updateDatabase` stores the reconciled snapshot under "Fundementals" and changes no other table; on an exception the catalog is unchanged; on success the table exists |
| Fundementals.EnsureTable | fundementals.py:60-65 | the table is created only when absent, with the indicator's columns, so it exists when it is read; an existing table is left as it was; the catalog stays ready |
| Fundementals.StoredKeepsReady | fundementals.py:60-65 | storing the frame the indicator reads back under the shared table's name keeps the catalog ready |
| Fundementals.MakeColumns | fundementals.py:61-65 | the column list holds a new column for each entry, with that entry's name and type, in order |
| Fundementals.Fundemental.constructor | fundementals.py:9-41 | only price to earnings keeps the database it is given: it sets `_db` after the base constructor has set it to None, while every other indicator sets it first and has it reset (also at lines 102-105) |
| Fundementals.Fundemental.Update | fundementals.py:89-96 | `_update` stores the percent, and persists only when there is a database; an exception from the percent leaves the percent and the catalog unchanged |
| Fundementals.NewFundemental | fundementals.py:26-41 | constructing an indicator yields an object exactly when its percent and, for price to earnings with a database, its persistence raise nothing; no indicator other than price to earnings changes the catalog |
| Scenarios.FirstObservationAppends | fundementals.py:83-84 | the first price to earnings observation on a freshly created table becomes its only row |
| Scenarios.OverwriteEveryTodayRow | fundementals.py:80 | two rows carrying today's date are both overwritten, and a missing forward value is written as a missing cell over the stored one |
| Storage.Column.ConvertType | database.py:38-40 | there is no SQLite type name exactly for the types the dictionary lacks |
| Storage.ConvertTypeRoundTrip | database.py:38-40 | every SQLite name produced reads back as the type it came from: int, float, str and bool map to INTEGER, REAL, TEXT and BOOLEAN |
| Storage.ConvertTypeInjective | database.py:38-40 | two types with the same SQLite name are the same type |
| Storage.TypeTextIsOneWord | database.py:51 | the type text, `None` for an unknown type, has no space |
| Storage.SplitAppended | database.py:51 | splitting `name + " " + type` at the last space recovers the name and the type when the type has no space |
| Storage.SqlRoundTrip | database.py:51 | a column declaration is the column name, one space and the type text, and it determines both |
| Storage.TerminatedThenLast | database.py:100-106 | every declaration followed by a separator, then the last declaration without one, is the separated list |
| Storage.ColumnListWithoutLast | database.py:100-104 | every column other than the last object gets its declaration followed by `", "` |
| Storage.StatementJoins | database.py:98-106 | the statement is `CREATE TABLE <name> (`, the declarations separated by `", "` with none after the last, then `) ;`, when the last column object occurs only at the end |
| Storage.RepeatedLastDropsSeparator | database.py:101 | the identity test looks at the object, not its position, shown on the list `[c, d, c]`: the earlier occurrence of the last object also loses its separator, so the column list is two characters shorter than the separated list |
| Storage.DbSuffixIsEndsWith | database.py:168 | the `[-3:]` slice test is an ends-with test, and a path shorter than three characters never passes |
| Storage.Table.CreateStatement | database.py:98-106 | the loop builds exactly the statement text the column list determines |
| Storage.Table.Create | database.py:94-109 | an existing table raises "Table Already Exists"; SQLite rejects an empty or repeated column list; otherwise an empty table with those columns is added, no other table changes, and the table exists afterwards |
| Storage.Table.Delete | database.py:123-127 | a missing table raises "<name> Table Does Not Exist"; otherwise exactly that table is removed, the others are untouched, and it is absent afterwards |
| Storage.Table.Update | database.py:135 | the whole table is replaced by the written snapshot, and reading it back returns exactly that snapshot |
| Storage.Table.Data | database.py:139 | reading succeeds exactly when the table exists, and then returns its stored snapshot |
| Storage.Database.ExistNeedsSuffix | database.py:168-169 | no path without the ".db" suffix counts as a database, whether or not the file is present |
| Storage.Database.Create | database.py:182-190 | checks in order: "Database Already Exists" when `exist` holds, then the suffix message, and otherwise adds the path; after success the database exists |
| Storage.Database.Delete | database.py:202-205 | removes the path exactly when `exist` holds, and otherwise raises "Database Does Not Exist or Wrong Directory"; afterwards `exist` fails |
| Storage.Database.Open | database.py:149-156 | opening creates the file when `exist` fails, and a path without the suffix raises; an existing file keeps its tables, and a new one has none |
| Storage.Database.AddTable | database.py:218-221 | the same "Table Already Exists" rule as `Table.create`, then the creation |
| Storage.Database.DeleteTable | database.py:231-234 | a missing table raises "Table Does Not Exist"; otherwise exactly that table is removed |
| Storage.Database.GetTable | database.py:238-241 | a missing table raises "Table Does Not Exist"; otherwise it returns a new handle with the requested name on this database |
| Storage.Database.Tables | database.py:253-256 | one new handle per table of the catalog, each table name exactly once |

## Left out

- SQLite itself is not modelled: connections, the 8-second timeout, `commit`, and the SQL text that
  `execute` runs. The catalog query of `Table.exist` is a map lookup. The statement text is still
  built (`Table.CreateStatement`), but it is never parsed.
- Table.Create: SQLite's own rejection of a CREATE statement is modelled only for an empty column
  list and a repeated column name. Names that differ only in letter case, reserved words and
  malformed names are not modelled.
- SQL injection through the f-string statements is not modelled.
- pandas I/O is modelled only by its meaning: `to_sql` with `if_exists='replace'` replaces the
  whole table, and `read_sql_query` reads it back. Column types, and the conversion of cells on
  the way in and out, are not modelled.
- Reconcile.MergeOnDate: pandas' `_x`/`_y` renaming of shared non-key columns is left out. The
  join requires that the sides share only the date, and `ShapedIsMergeReady` proves this holds
  for every table the indicators write.
- Fundementals.UpdateDatabase: it requires the stored "Fundementals" table to be `Shaped`, as do
  `Fundemental.Update` and `NewFundemental`. The indicators keep that invariant, but nothing
  establishes it for a table already in a file: `Database.Open` accepts any well-formed tables.
  A table written by other code, such as one with the columns [Date, TrailingPE], is outside the
  model. On such a table, the join branch would rename clashing columns with `_x`/`_y`.
- Table.Update: it requires a well-formed snapshot. A frame with repeated column names, which
  pandas allows, is not modelled.
- `datetime.now()` is the parameter `today`. The code reads the clock up to four times per block,
  and reads that straddle midnight are not modelled.
- Fundementals.CalculatePercent: the floating-point formulas are not modelled. The percent is an
  abstract value naming the indicator and its inputs; only its None/present structure, the
  TypeError on None and the zero-divisor exception are stated.
- `Indicator.__str__`, its rounding, and `indicator.py` as a whole are left out: it is an
  abstract base with property getters and a keyword-argument dump.
- Keyword arguments copied into an object's attributes are left out, in `Column` as in the
  indicators.
- The indicators' name and description strings are left out. Among them, `DebtToEquity` passes
  the name "Dividend Yield".
- Real file creation and removal are a set of paths in a `FileSystem` object. The catalog belongs
  to one `Database` object; two objects opened on the same file do not share tables.
- Database.Open: the tables an existing file already holds are the parameter `stored`.
- Database.Tables: the order SQLite lists the tables in is not modelled; each one appears once.
- A concrete join scenario is not among the worked examples. The join is covered for all inputs
  by `MergeCells` and `MergeDropsOtherDates`.
