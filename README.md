# CB-DS trace dataset builder, modelled in Dafny

`parser.py` turns system-call traces (`.scap` files) into the two CSV files of
a log-parsing benchmark. It works in three steps:

1. It lists 100 normal traces and one trace per attack. These are the path
   comprehensions of lines 55-63.
2. `get_scap_dfs` loads every trace through an external trace parser (lines
   16-43). It keeps the tables that have the columns `timestamp`, `syscall`
   and `args`. It stamps each kept table with a `label` taken from the trace's
   directory, a `content` copy of `syscall`, and epoch-second timestamps. Then
   it concatenates the kept tables and numbers their rows from 0.
3. The main block (lines 65-72) does the rest:
   - it names the index `LineId` and renames the columns with the map of
     lines 45-52;
   - it numbers the distinct templates with `groupby("EventTemplate").ngroup()`;
   - it keeps six columns;
   - it counts the rows of every (EventId, EventTemplate) group.

The model is over an abstract DataFrame and is split into these modules:

- `Values`: the cells that occur, which are strings and integers, and the
  order pandas' sorting `groupby` puts them in: integers by value, then
  strings by code point.
- `Grouping`: the distinct keys in ascending order and their counts, which is
  what `groupby(sort=True)` enumerates.
- `Frames`: the DataFrame value `Table` and the mutable `Frame` object. It
  covers column assignment, `rename`, `rename_axis`, `reset_index`,
  `pd.concat`, projection, `ngroup()` and `size()`.
- `PosixPath`: `os.path.join`, `dirname` and `basename`.
- `ScapPaths`: the path lists.
- `Loader`: `get_scap_dfs`. It is written as in-place loops over frames and
  proved against the function `GetScapDfsSpec`.
- `Dataset`: the main block. The method `BuildDataset` is proved against
  `BuildDatasetSpec`.

A row is a map from column name to cell. A column a row does not map is a
missing value (NaN). That is what `pd.concat` leaves where one table lacks
another's column, and what `groupby` drops.

Things outside the model are parameters. Each run ends in one outcome:

- **The trace parser** is `process: string -> Option<Table>`. `None` means
  `process_scap` raised, which aborts the run: `Err(ParserFailed)`.
- **The clock** is `clock: nat -> string`: the date `%Y-%m-%d` that
  `datetime.now()` gives on pass `i` of the loop (line 32 reads it once per
  kept trace).
- **pandas' ISO 8601 parser** is `parse: string -> Option<int>`: a datetime
  string's nanoseconds since the epoch, or `None` when line 35 raises, which
  ends the run with `Err(BadTimestamp(path))`. Line 36 becomes floor division
  by 10^9.
- **No table kept**: `pd.concat([])` raises, and the model returns
  `Err(NoObjectsToConcatenate)`.

Notes on the source, modelled as the evident intent and not silently fixed:

- The guard on line 54 compares `__name__` with `"main"`, not `"__main__"`, so
  lines 55-73 never run when the script is executed. The model describes what
  they would do.
- `ATTACKS` on line 59 is a list nested inside a list. As written, line 63
  would hand that inner list to `os.path.join`, which raises `TypeError`.
  `ScapPaths.ATTACKS` is the flat list of nine names that the comprehension
  evidently expects.
- Line 19 creates a `Pool` that is never closed. Line 23 opens a second one in
  a `with` block. The pools and their leak are not modelled.
- Line 56 joins the script's directory with an absolute path, so the script's
  directory is discarded (`ScapPaths.DatasetDirIgnoresCurrentDir`). The
  dataset root ends in `CB-DS/CB-DS`.
- The grouping order of `EventId` follows the code: pandas' default
  `sort=True` numbers the templates in ascending order. A per-trace parse
  failure is not skipped: it propagates out of `async_result.get()` and ends
  the run.

## Model

| member | source | states |
|---|---|---|
| `ScapPaths.NormalPaths` | parser.py:62 | the normal trace list. `ScapPaths.NormalPathsSpec` gives its length, its elements and that none repeats |
| `ScapPaths.AttackPaths` | parser.py:63 | the attack trace list, trace number outer and attack inner. `ScapPaths.AttackPathsLength`, `ScapPaths.AttackPathAt` and `ScapPaths.AttackPathsUnique` characterise it |
| `ScapPaths.ScapPathList` | parser.py:62-65 | the list line 65 passes to `get_scap_dfs`: the normal paths, then the attack paths. `Loader.ScapPathListUnique`, `Loader.NormalPathLabel` and `Loader.AttackPathLabel` characterise it |
| `ScapPaths.DatasetDirIgnoresCurrentDir` | parser.py:55-56 | whatever the script's directory, the dataset directory is the absolute root joined with `CB-DS` |
| `ScapPaths.NormalPathsSpec` | parser.py:62 | the normal list has 100 paths; path `x` is `NORMAL/<x+1>.scap`; no path occurs twice |
| `ScapPaths.AttackPathsLength` | parser.py:63 | the attack list has `SCAP_PER_ATTACK * len(ATTACKS)` paths |
| `ScapPaths.AttackPathAt` | parser.py:63 | position `x * len(ATTACKS) + j` holds `ATTACKS/<attack j>/<x+1>.scap`: the trace number is the outer loop, the attack the inner |
| `ScapPaths.AttackPathsUnique` | parser.py:63 | distinct plain attack names give an attack list with no repeated path |
| `ScapPaths.AttackPathInjective` | parser.py:63 | two attack paths are equal only for the same attack and trace number |
| `ScapPaths.NatToStringInjective` | parser.py:62-63 | distinct trace numbers print as distinct decimal strings |
| `ScapPaths.AttacksArePlain` | parser.py:59 | the nine attack names are non-empty, free of `/`, pairwise distinct, and neither `NORMAL` nor `-` |
| `ScapPaths.FlattenAt` | parser.py:63 | flattening the nested comprehension puts element `j` of group `x` at `x * m + j` |
| `ScapPaths.FlattenUnique` | parser.py:63 | groups without repeats or shared members flatten to a list without repeats |
| `PosixPath.Join` | parser.py:56-63 | `os.path.join`. `PosixPath.JoinName`, `PosixPath.SplitJoin`, `PosixPath.JoinInjective` and `ScapPaths.DatasetDirIgnoresCurrentDir` characterise it |
| `PosixPath.Dirname` | parser.py:31 | `os.path.dirname`. `PosixPath.SplitJoin` and `PosixPath.ParentName` characterise it |
| `PosixPath.Basename` | parser.py:31 | `os.path.basename`. `PosixPath.JoinName` and `PosixPath.ParentName` characterise it |
| `PosixPath.JoinName` | parser.py:31 | `join(d, c)` ends in `/c` |
| `PosixPath.SplitJoin` | parser.py:31 | `dirname` and `basename` undo `join(x, f)` for a plain file name `f` |
| `PosixPath.ParentName` | parser.py:31 | the parent-directory name of `join(join(d, c), f)` is `c` |
| `PosixPath.JoinInjective` | parser.py:62 | joining one directory with two different plain names gives different paths |
| `Loader.GetScapDfsSpec` | parser.py:16-43 | all of `get_scap_dfs`: the parse over the pool, then `Merge`, or `ParserFailed`. `Loader.GetScapDfs` computes it and `Dataset.LoadedWf` characterises it |
| `Loader.Labelled` | parser.py:31-34 | the label column, then `content` as a copy of `syscall`. `Loader.StampCells`, `Loader.StampedRowsLabelled` and `Loader.StampFrame` characterise it |
| `Loader.EpochSeconds` | parser.py:35-36 | whole seconds since the epoch, rounded down, of the date joined to a cell. `Loader.StampCells` pins each stamped cell to it |
| `Loader.Outcome` | parser.py:30-36 | one pass of the loop body: nothing for a table without the three columns, otherwise its stamp. `Loader.OutcomesKeepAccepted` and `Loader.ProcessOne` characterise it |
| `Loader.Outcomes` | parser.py:29-36 | the loop body on every pair, pass `i` reading `clock(i)` |
| `Loader.Collect` | parser.py:29-39 | the loop over the outcomes: the stamped tables in order, or the first error. `Loader.CollectStep`, `Loader.CollectStopsAtError`, `Loader.CollectSpec`, `Loader.CollectAccepted`, `Loader.CollectFirstFailure` and `Loader.StampLoop` characterise it |
| `Loader.Merge` | parser.py:29-42 | the loop, `pd.concat` and `reset_index`. `Loader.MergeSpec`, `Loader.MergeValue`, `Loader.MergeRowCount`, `Loader.MergedRow`, `Loader.MergedRowsLabelled`, `Loader.MergedColumns` and `Loader.MergedWf` characterise it |
| `Loader.LabelOf` | parser.py:31-33 | a label is never the literal `NORMAL` |
| `Loader.LabelOfTrace` | parser.py:31-33 | the label of `d/c/f` is the directory name `c`, or `-` when `c` is `NORMAL` |
| `Loader.NormalPathLabel` | parser.py:31-33 | each of the first 100 listed traces is labelled `-` |
| `Loader.AttackPathLabel` | parser.py:31-33 | the trace at `100 + x * len(ATTACKS) + j` is labelled with attack `j`'s name |
| `Loader.ScapPathListUnique` | parser.py:62-65 | the list handed to the loader has `100 + SCAP_PER_ATTACK * len(ATTACKS)` paths and none twice |
| `Loader.ConfiguredLabel` | parser.py:31-33 | every configured trace (lines 62-63) is labelled `-` or with the name of one of the nine attacks |
| `Loader.ConfiguredRowsLabelled` | parser.py:31-33 | every row merged from the configured traces is labelled `-` or with the name of one of the nine attacks (`KnownLabel`) |
| `Loader.ParseAll` | parser.py:24-27 | the pool's result exists iff every parse succeeds; it then holds each path's table in input order |
| `Loader.Stamp` | parser.py:33-36 | stamping one table fails only with `BadTimestamp` of that table's path |
| `Loader.StampFails` | parser.py:35-36 | stamping succeeds iff every row's `timestamp` is missing or parses once the date is prefixed |
| `Loader.StampCells` | parser.py:33-36 | stamping keeps the rows and the index; every cell is the label, the `syscall` copy, the epoch second or the original |
| `Loader.StampColumns` | parser.py:33-36 | stamping adds exactly `label` and `content` to the columns and keeps a DataFrame well formed |
| `Loader.StampedRowsLabelled` | parser.py:33-34 | every row of one stamped table has the same label, its path's, and `content` equal to `syscall` |
| `Loader.StampFrame` | parser.py:33-36 | the in-place column assignments leave the frame holding the stamped table; when line 35 raises, it is reported and the frame holds the labelled table with `content` copied |
| `Loader.ProcessOne` | parser.py:30-39 | one pass: no frame iff the table lacks a required column; otherwise the stamped frame or the timestamp error |
| `Loader.StampLoop` | parser.py:29-39 | the loop's `final_dfs` are the outcomes collected in order, up to the first timestamp error |
| `Loader.GetScapDfs` | parser.py:16-43 | the method returns a fresh frame holding `GetScapDfsSpec`, or that function's error |
| `Loader.CollectStep` | parser.py:29-39 | one pass appends a kept table, skips a dropped one, and an error stops the loop |
| `Loader.CollectStopsAtError` | parser.py:29-39 | once a pass has raised, later passes change nothing |
| `Loader.CollectSpec` | parser.py:29-39 | collecting fails iff some kept outcome failed, with the first failure; otherwise it lists the kept tables in order |
| `Loader.Kept` | parser.py:29-30 | the kept passes are exactly the ones with an outcome, in increasing order |
| `Loader.AcceptedIndices` | parser.py:30 | the accepted traces are exactly those whose table has `timestamp`, `syscall` and `args`, in input order |
| `Loader.KeptAccepted` | parser.py:30 | the kept passes are the accepted traces |
| `Loader.IncreasingUnique` | parser.py:29-30 | two increasing index lists with the same members are equal |
| `Loader.OutcomesKeepAccepted` | parser.py:29-39 | a table is kept iff it is accepted, and then its outcome is its stamped table; rejected tables contribute nothing, not even partly |
| `Loader.CollectAccepted` | parser.py:29-39 | the loop succeeds iff every accepted table stamps, and then yields the stamped accepted tables in input order |
| `Loader.CollectFirstFailure` | parser.py:35 | a failed loop reports `BadTimestamp` of the first accepted trace whose stamping fails |
| `Loader.MergeSpec` | parser.py:29-43 | success iff some table is accepted and all stamp; no accepted table gives `NoObjectsToConcatenate`; the rows are the stamped tables' rows table after table; the index is 0..n-1 and unnamed |
| `Loader.MergeValue` | parser.py:41-42 | the result is the renumbered concatenation of the stamped accepted tables |
| `Loader.MergeRowCount` | parser.py:41-42 | the merged table has as many rows as the accepted tables together |
| `Loader.StampedRowCounts` | parser.py:33-37 | stamping keeps each accepted table's row count |
| `Loader.MergedRow` | parser.py:29-42 | row `j` of the `k`-th accepted table sits at offset (rows of the earlier accepted tables) + `j`, stamped with its own path and pass |
| `Loader.MergedRowsLabelled` | parser.py:31-34 | every merged row carries the label of some accepted trace, never `NORMAL`, and `content` equal to `syscall` |
| `Loader.MergedColumns` | parser.py:33-41 | the merged columns are `label`, `content` and the columns of the accepted tables, the required ones among them |
| `Loader.MergedWf` | parser.py:41-42 | concatenating DataFrames gives a DataFrame |
| `Loader.StampedColumns` | parser.py:33-37 | each stamped table has its source's columns plus `label` and `content` |
| `Loader.StampedColumnsUnion` | parser.py:41 | a column occurs in some stamped table iff it is `label`, `content` or a column of an accepted table |
| `Frames.Concat` | parser.py:41 | `pd.concat` along the rows, with `NoObjectsToConcatenate` for an empty list. `Frames.ConcatRows`, `Frames.ConcatColumns` and `Frames.ConcatWf` characterise it |
| `Frames.GroupKeys` | parser.py:69 | the groups of a sorting `groupby`. `Frames.SingleColumnGroups`, `Frames.NGroupDense` and `Frames.NGroupOrder` characterise it |
| `Frames.SizeTable` | parser.py:72 | `groupby(...).size().reset_index(name=...)`. `Frames.SizeTableRows` and `Frames.SizeTableTotal` characterise it |
| `Frames.WithColumn` | parser.py:33-36 | `df[c] = vals` keeps the rows and index and sets `c` row by row |
| `Frames.WithColumnCells` | parser.py:33-36 | after `df[c] = vals`, column `c` holds `vals` and the other cells are unchanged |
| `Frames.WithColumnShape` | parser.py:33 | `df[c] = vals` keeps the columns in order, appends `c` if new, and keeps a DataFrame well formed |
| `Frames.Reindexed` | parser.py:42 | `reset_index(drop=True)` numbers the rows 0..n-1, unnamed, and keeps rows and columns |
| `Frames.WithAxisName` | parser.py:66 | `rename_axis` names the index and changes nothing else |
| `Frames.Renamed` | parser.py:67 | `rename` succeeds iff no two columns get one name; it moves every cell to its column's new name and keeps a DataFrame well formed |
| `Frames.RenamedHas` | parser.py:67 | each renamed column is present under its new name |
| `Frames.RenamedCells` | parser.py:67 | each row's cell under the new name is its cell under the old one |
| `Frames.RenameRow` | parser.py:67 | renaming one row moves each cell to its new key and adds none |
| `Frames.Project` | parser.py:70 | `df[cols]` succeeds iff every column exists, else names the missing ones; it has exactly `cols` in order and keeps those cells |
| `Frames.Absent` | parser.py:70 | the missing columns are exactly the listed ones the table lacks |
| `Frames.UnionNames` | parser.py:41 | the concatenated columns are the first table's, then each new name once |
| `Frames.ConcatRows` | parser.py:41 | `pd.concat` keeps every row of every table, table after table |
| `Frames.ConcatColumns` | parser.py:41 | the first table's columns come first; a column is present iff some table has it |
| `Frames.AllRowsAt` | parser.py:41 | row `j` of table `k` is at (rows of tables before `k`) + `j` |
| `Frames.AllRowsFrom` | parser.py:41 | every concatenated row comes from some table |
| `Frames.AllRowsLength` | parser.py:41 | the concatenation has as many rows as all tables together |
| `Frames.ConcatWf` | parser.py:41 | concatenating DataFrames gives a DataFrame |
| `Frames.KeyOf` | parser.py:69 | a row has a group key iff it has every grouped cell, and the key lists those cells |
| `Frames.PresentKeys` | parser.py:69 | a key is present iff some row has it |
| `Frames.PresentKeysCount` | parser.py:72 | a key occurs among the present keys once per row that has it |
| `Frames.PresentKeysLength` | parser.py:72 | there is one present key per row that has a key |
| `Frames.NGroup` | parser.py:69 | `ngroup()` gives one entry per row |
| `Frames.NGroupDense` | parser.py:69 | rows get a number iff they have a key; the numbers are 0..g-1 for the g distinct keys, each used |
| `Frames.NGroupSame` | parser.py:69 | two keyed rows share a number iff they share a key |
| `Frames.NGroupOrder` | parser.py:69 | the numbers follow the ascending order of the keys (`sort=True`) |
| `Frames.NGroupPointwise` | parser.py:69-70 | rows whose keys agree one for one get the same numbers |
| `Frames.SingleColumnGroups` | parser.py:69 | on one column, the groups are that column's distinct values in ascending order |
| `Frames.SizeTableRows` | parser.py:72 | `size().reset_index(name=count)` has one row per group in ascending order, with the key's cells and the group's row count |
| `Frames.SizeTableTotal` | parser.py:72 | the counts of `size()` add up to the number of keyed rows |
| `Frames.CountKeyPointwise` | parser.py:72 | two keys selecting the same rows have the same count |
| `Frames.CountKeyedAll` | parser.py:72 | when every row has a key, every row is counted |
| `Frames.KeyRowCells` | parser.py:72 | each row of `size()` holds each key part under its own column name |
| `Frames.Frame.SetColumn` | parser.py:33-36 | in place: the frame becomes `WithColumn` of its old value |
| `Frames.Frame.ResetIndex` | parser.py:42 | in place: the frame becomes `Reindexed` of its old value |
| `Frames.Frame.RenameAxis` | parser.py:66 | in place: the index gets the new name |
| `Frames.Frame.Rename` | parser.py:67 | in place: the frame becomes `Renamed` of its old value when that succeeds, and is unchanged otherwise |
| `Grouping.SortedKeys` | parser.py:69 | the distinct keys in ascending order. `Grouping.SortedKeysSpec` and `Grouping.SortedUnique` characterise it |
| `Grouping.SortedKeysSpec` | parser.py:69 | the groups are ascending with no repeats, and are exactly the keys that occur |
| `Grouping.IndexOrder` | parser.py:69 | positions among the sorted groups follow the order of the keys |
| `Grouping.IndexOfSorted` | parser.py:69 | the position of a group is its index among the groups |
| `Grouping.SortedUnique` | parser.py:72 | an ascending list without repeats is determined by its members |
| `Grouping.SumCountsTotal` | parser.py:72 | the group sizes add up to the number of keys |
| `Grouping.InsertSorted` | parser.py:69 | inserting a key keeps the groups ascending |
| `Values.StrLessTransitive` | parser.py:69 | Python's string order is transitive |
| `Values.StrLessTotal` | parser.py:69 | any two strings are equal or ordered one way |
| `Values.PartsLessTransitive` | parser.py:72 | the tuple order of grouped keys is transitive |
| `Values.PartsLessTotal` | parser.py:72 | any two keys are equal or ordered one way |
| `Values.SingletonKeyLess` | parser.py:69 | one-column keys compare as their values |
| `Dataset.WithEventIds` | parser.py:69 | the `EventId` column from `ngroup()`. `Dataset.ProjectedCells`, `Dataset.EventIdRank`, `Dataset.EventIdDense`, `Dataset.EventIdSame` and `Dataset.EventIdOrder` characterise it |
| `Dataset.Structured` | parser.py:66-70 | `rename_axis`, `rename`, `EventId` and the projection on the loaded table. `Dataset.StructuredOk`, `Dataset.StructuredCells`, `Dataset.StructuredIds` and `Dataset.Structure` characterise it |
| `Dataset.TemplateTable` | parser.py:72 | the template table. `Dataset.TemplateTableSpec` and `Dataset.OccurrencesTotal` characterise it |
| `Dataset.BuildDatasetSpec` | parser.py:55-72 | the whole script: the structured log and the template table, or the first error. `Dataset.BuildDataset` computes it, and `Dataset.DatasetSpec` and `Dataset.WrittenLabels` characterise it |
| `Dataset.ColumnsMap` | parser.py:45-52 | with the duplicate `content` key, the dict maps exactly the five loaded columns to their public names |
| `Dataset.ColumnNames` | parser.py:45-52 | what `rename` makes of each loaded column; `EventId` keeps its name |
| `Dataset.LoadedWf` | parser.py:65 | the table the loader returns is a DataFrame |
| `Dataset.StructuredOk` | parser.py:66-70 | on a loaded table, the block fails only when renaming would give two columns one name; the projection then always finds its six columns |
| `Dataset.RenamedLogCells` | parser.py:66-67 | renaming keeps the rows and index, names the index `LineId`, and moves every loaded column to its public name |
| `Dataset.ProjectedCells` | parser.py:69-70 | the projection has the six columns; `EventId` is the `ngroup` number and the other five cells are unchanged |
| `Dataset.StructuredCells` | parser.py:66-70 | the structured log keeps every row in order under `LineId`, with the six columns read from the loaded ones |
| `Dataset.StructuredIds` | parser.py:69-70 | each structured row's `EventId` is the `ngroup` number of its own template |
| `Dataset.Structure` | parser.py:66-70 | the in-place `rename_axis`, `rename` and `EventId` assignment, then the projection as a new frame, give `Structured`; the old frame ends up renamed with its `EventId` column, or only with its index named when `rename` collides |
| `Dataset.BuildDataset` | parser.py:55-72 | the whole script gives `BuildDatasetSpec`: the structured log and its template table, or the first error |
| `Dataset.RankedTemplatesSpec` | parser.py:69 | the distinct templates in ascending order, each once; they are the groups of line 69 |
| `Dataset.EventIdRank` | parser.py:69 | a row has an `EventId` iff it has a template; the id is that template's rank among the distinct templates |
| `Dataset.EventIdDense` | parser.py:69 | the ids are exactly 0..k-1 for the k distinct templates, each used |
| `Dataset.EventIdSame` | parser.py:69 | two rows share an id iff they share a template |
| `Dataset.EventIdOrder` | parser.py:69 | a smaller id means a smaller template, and a smaller template a smaller id |
| `Dataset.TemplateKeyOf` | parser.py:72 | a row's (EventId, EventTemplate) key exists iff it has a template |
| `Dataset.RankedPairs` | parser.py:72 | the pairs (g, g-th template) are in strictly ascending key order |
| `Dataset.TemplateKeysRanked` | parser.py:72 | every row's (EventId, EventTemplate) key is one of those pairs |
| `Dataset.RankedPairsPresent` | parser.py:72 | every such pair is the key of some row |
| `Dataset.TemplateGroups` | parser.py:72 | the (EventId, EventTemplate) groups are the pairs (g, g-th template), in that order |
| `Dataset.TemplateCount` | parser.py:72 | the rows of group (g, g-th template) are exactly the rows with the g-th template |
| `Dataset.TemplateRow` | parser.py:72 | row g of the template table holds id g, the g-th template and the number of rows with that template |
| `Dataset.TemplateTableSpec` | parser.py:72 | the template table has columns `EventId, EventTemplate, Occurrences` and one row per distinct template, in ascending order, with its count |
| `Dataset.OccurrencesTotal` | parser.py:72 | the occurrences add up to the rows that have a template, so to all rows when every row has one |
| `Dataset.StructuredIndex` | parser.py:42-66 | rows numbered 0..n-1 keep those numbers, now under the name `LineId`; the log has the six columns and as many rows as the loaded table |
| `Dataset.StructuredLabels` | parser.py:67-70 | labels other than `NORMAL` and `content` copies of `syscall` carry over to `Label` and `Content`/`EventTemplate` |
| `Dataset.StructuredRows` | parser.py:42-70 | index, row count, labels and ids of the structured log of such a loaded table, together |
| `Dataset.MergedStructured` | parser.py:41-70 | the structured log of a merged table is numbered 0..n-1 under `LineId`, has one row per row of the accepted tables, has no `NORMAL` label, and each `Content` equals its `EventTemplate` |
| `Dataset.DatasetSpec` | parser.py:55-72 | both written tables: the structured log as above with consistent ids and one row per row of the accepted traces, and the template table built from it, whose `Occurrences` add up to the rows with a template (all rows when every row has one); every written `Label` is `-` or an attack's name |
| `Dataset.WrittenLabels` | parser.py:31-33 | every `Label` the script writes is `-` or the name of one of the nine attacks of line 59 |

## Left out

- `Sysdig().process_scap` (line 24) is a foreign native parser. It is the parameter `process`. Nothing is claimed about what it parses, except the one assumption that `Dataset.DataFrames` states.
- The `multiprocessing.Pool`s, `map_async`, `chunksize=50`, `close`, `join`, and the pool leaked at line 19 are concurrency. The model maps the parser over the paths in order, which is what `async_result.get()` returns.
- `get_scap_paths` (lines 10-14) is filesystem I/O through `glob` and is never called.
- `datetime.now()` and `pd.to_datetime(..., format="ISO8601")` (lines 32 and 35) are the parameters `clock` and `parse`. No ISO 8601 behaviour is modelled. Time zones and sub-second handling inside pandas are part of `parse`.
- `to_csv` (lines 71 and 73) and the warning `print` (line 39) are I/O. The model returns the two tables the script writes. It does not model the CSV text, or writing `LineId` as a column.
- pandas dtypes are not modelled. For example, `ngroup()` yields floats with NaN when some row has no template, and timestamps pass through `datetime64`. Cells are unbounded integers or strings, and a missing cell is an absent key.
- Dataset.DataFrames: the model assumes every table the parser returns has distinct column labels (`Wf`). pandas does not guarantee this. A parsed table that repeats a label the script never touches would still load, and line 70's projection would drop that label. The model does not cover such a table.
- Frames.Renamed: where pandas' `rename` would leave two columns with one label, the model returns `Err(DuplicateColumns)` instead of modelling a DataFrame with duplicate labels. A loaded table gets there only if it already has a column named `Timestamp`, `EventTemplate`, `Content`, `Label` or `ParameterList` besides the one renamed to it.
- Values.ValueLess: it orders only the cell types the model holds. It follows pandas' sort of a mixed column: integers by value, then strings by code point. Cells holding floats, booleans or `None` cannot be represented, so their place in that order is not modelled.
- Frames.TotalCount: it adds only the integer cells of the count column, which are the only cells `size()` produces.
- Each parsed table is a fresh frame created inside the loop, standing for the unpickled worker result. Aliasing between the parsed tables is not possible in the source and is not modelled.
