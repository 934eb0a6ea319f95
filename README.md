# Late-return report service: a Dafny model

This project models the deciding logic of the Tianjin dormitory late-return service in Dafny 4.11. The service does the following:

- It fetches the gate records of each building page by page.
- It keeps the newest record per student.
- It relabels and classifies the rooms.
- It sorts the rows and compiles them into a spreadsheet grid with a capped sheet title, column widths and a dated file name.
- Around that sit a web front end and a scheduler:
  - the SQLite store, modelled as in-memory tables;
  - the admin API handlers;
  - the login and admin guards;
  - the building-permission filter on queries;
  - the scheduler that turns email tasks into cron jobs;
  - the task runner that writes the task-log state machine (`running`, then `success`, `email_failed` or `failed`, unless the report generator calls `exit()` and the log stays `running`).

Layout, one module per source file plus shared helpers:

| file | module | models |
|---|---|---|
| wrappers.dfy, seqs.dfy | Wrappers, Seqs | Option/Result, first index satisfying a predicate, flattening |
| strings.dfy | Strings | Python `str(int)`, `int(str)`, `strip`, `split()`, `lower` (ASCII), `'-'.join`, slicing, string order, `replace(pat, '')`, `lstrip(c)` |
| dates.dfy | Dates | calendar dates, previous/next day, `strftime`/`strptime` for `%Y-%m-%d` and `%Y-%m-%d %H:%M:%S` |
| buildings.dfy | Buildings | `convert_building_show`, room relabelling, graduate/undergraduate classification |
| records.dfy | Records | `process_data`: newest record per `userId` |
| row_order.dfy | RowOrder | `sort_key` and Python's stable sort |
| report.dfy | Report | `gen_excel_data_v1`: relabel loop, title, cells, `set_style` widths, file name |
| fetcher.dfy | Fetcher | `t3.deal`: group id, time window, page count, offsets, page concatenation |
| config_tool.dfy | ConfigTool | `ConfigTool` getters over a key/value store |
| tables.dfy | Tables | the rows of the SQLite tables and pure queries over them |
| database.dfy | Db | `class Database`: every mutating method of `database/db.py` |
| task_manager.dfy | TaskManagement | `TaskManager.execute_single_task`, `execute_all_enabled_tasks` |
| scheduler.dfy | Scheduling | `SchedulerManager.start`, `stop`, `reload`, `get_jobs` |
| auth.dfy | Auth | `login_required`, `admin_required` |
| admin.dfy | Admin | the handlers of `routes/admin.py` |
| app.dfy | App | `query`, `login`, `logout`, `download_file` of `app.py` |

Calls the model cannot see are function parameters:

- the HTTP page server;
- the report generator (`process`, which returns its result dictionary, raises, or calls `exit()`) and the mail sender;
- the cron-field validator of APScheduler;
- `safe_join`, the file-existence test and whether a path is a regular file (`send_file` raises for a folder);
- JSON decoding;
- the clock.

"Today" and "now" are parameters of the operations that read the clock.

## Model

| member | source | states |
|---|---|---|
| Buildings.BuildingLabel | get_excel_data_curr/gen_excel_data_v1.py:44-66 | buildings 11..20 get the labels 11A, 11B, 12A, 12B, 13, 14, 15, 16, 17A, 17B; any other number its decimal text |
| Buildings.BuildingLabelInjective | get_excel_data_curr/gen_excel_data_v1.py:44-66 | two building numbers with the same label are the same number (the renaming never collides with a plain number) |
| Buildings.BuildingLabelHasNoDash | get_excel_data_curr/gen_excel_data_v1.py:44-66 | the label of a non-negative building has no `-`, so the relabelled room splits back at its first `-` |
| Buildings.RenamedLabelAsNumber | get_excel_data_curr/gen_excel_data_v1.py:53-60 | a renamed building whose label reads as a number is one of 15..18, shown as its number minus 2 |
| Buildings.BuildingPart | get_excel_data_curr/gen_excel_data_v1.py:166 | the building part is empty when the room has no `-`, else the dash-free prefix ending right before the first `-` |
| Buildings.Classify | get_excel_data_curr/gen_excel_data_v1.py:162-182 | the level is 研究生 exactly when the room is not one of the 45 undergraduate rooms of building 4 and its building part is 4, 5, 7, 11A or 11B; otherwise 本科 |
| Buildings.BuildingPartOfRoomLabel | get_excel_data_curr/gen_excel_data_v1.py:89-166 | the building part of a relabelled room is exactly its building label |
| Buildings.ClassifyByBuilding | get_excel_data_curr/gen_excel_data_v1.py:89-182 | a relabelled room is graduate exactly when its building number is 4, 5, 7, 11 or 12 and it is not an undergraduate room of building 4 |
| Buildings.UndergradRoomIsInBuilding4 | get_excel_data_curr/gen_excel_data_v1.py:169-177 | a relabelled room on the undergraduate list belongs to building 4 |
| Records.UserIds | get_excel_data_curr/gen_excel_data_v1.py:21-26 | the keys of `grouped_data` in first-appearance order, without repetition |
| Records.UserIdsCover | get_excel_data_curr/gen_excel_data_v1.py:24-26 | every record's `userId` is a key, and every key comes from some record |
| Records.GroupMembers | get_excel_data_curr/gen_excel_data_v1.py:24-26 | a user's group holds exactly that user's records |
| Records.FirstMaxIndex | get_excel_data_curr/gen_excel_data_v1.py:32-34 | the chosen index holds a greatest `passTimeText`, and every earlier record is strictly older (the stable descending sort keeps the first of equals) |
| Records.FirstMax | get_excel_data_curr/gen_excel_data_v1.py:32-34 | `records[0]` after the sort is a member whose time is not below any other |
| Records.Latest | get_excel_data_curr/gen_excel_data_v1.py:29-37 | one output record per distinct user |
| Records.LatestIsNewest | get_excel_data_curr/gen_excel_data_v1.py:19-40 | the k-th output record belongs to the k-th user, is an input record, and its time is not below any of that user's input times |
| Records.LatestOnePerUser | get_excel_data_curr/gen_excel_data_v1.py:19-40 | no two output records share a user, and every input user has an output record |
| Records.LatestIsFirstNewest | get_excel_data_curr/gen_excel_data_v1.py:32-34 | each output record is the first of its user's newest records in input order |
| Records.GroupOfAbsent | get_excel_data_curr/gen_excel_data_v1.py:24-26 | a user id with no record has an empty group |
| Records.UserIdsHaveGroups | get_excel_data_curr/gen_excel_data_v1.py:24-30 | every key of `grouped_data` has a non-empty group |
| Records.GroupIndex | get_excel_data_curr/gen_excel_data_v1.py:24-26 | the p-th member of a user's group sits at an input index that holds that user's record |
| Records.GroupRank | get_excel_data_curr/gen_excel_data_v1.py:24-26 | an earlier input record of the same user has an earlier place in the group |
| Records.GroupRankInPrefix | get_excel_data_curr/gen_excel_data_v1.py:24-26 | every input record of a user has a place in that user's group |
| Records.NewestRecord | get_excel_data_curr/gen_excel_data_v1.py:32-37 | the sort-and-take-first loop returns the first newest record of the group |
| Records.FirstMaxSnoc | get_excel_data_curr/gen_excel_data_v1.py:32-34 | one more record replaces the newest so far exactly when its time is strictly later |
| Records.GroupByUser | get_excel_data_curr/gen_excel_data_v1.py:21-26 | the grouping loop yields the users in first-appearance order, with each group holding the user's records in input order |
| Records.LatestPerUser | get_excel_data_curr/gen_excel_data_v1.py:21-37 | the per-building loops yield exactly the newest record per user |
| Records.ProcessData | get_excel_data_curr/gen_excel_data_v1.py:14-42 | the outer keys are kept in order, and each building's records are replaced by their newest record per user |
| RowOrder.InstituteLabel | get_excel_data_curr/gen_excel_data_v1.py:98-107 | the sort key's institute part: the configured name, else the first two and last two characters when the name has at least 2, else the name (definition; InstituteCellVersusSortLabel compares it with column B) |
| RowOrder.KeyLeTotal | get_excel_data_curr/gen_excel_data_v1.py:98-109 | the (institute label, time) key order is total |
| RowOrder.KeyLeTransitive | get_excel_data_curr/gen_excel_data_v1.py:98-109 | the key order is transitive |
| RowOrder.Insert | get_excel_data_curr/gen_excel_data_v1.py:109 | inserting a row adds exactly that row |
| RowOrder.SortRows | get_excel_data_curr/gen_excel_data_v1.py:109 | the sort is a permutation of its input |
| RowOrder.InsertMembers | get_excel_data_curr/gen_excel_data_v1.py:109 | an inserted sequence holds only the new row and the old rows |
| RowOrder.SortedPrepend | get_excel_data_curr/gen_excel_data_v1.py:109 | a row whose key is at most the first key can be put in front of a sorted sequence |
| RowOrder.SortedCons | get_excel_data_curr/gen_excel_data_v1.py:109 | a row whose key is at most every key can be put in front of a sorted sequence |
| RowOrder.InsertSorted | get_excel_data_curr/gen_excel_data_v1.py:109 | inserting into sorted rows keeps them sorted |
| RowOrder.SortRowsSorted | get_excel_data_curr/gen_excel_data_v1.py:98-109 | the rows come out ascending by (institute label, `passTimeText`) |
| RowOrder.InsertAtEnd | get_excel_data_curr/gen_excel_data_v1.py:109 | a row not below any key goes last (stability) |
| RowOrder.InsertSkip | get_excel_data_curr/gen_excel_data_v1.py:109 | a row whose key is not below the first key is placed after that first row |
| RowOrder.SortedLast | get_excel_data_curr/gen_excel_data_v1.py:109 | a sorted sequence without its last row is sorted, and that row is a greatest one |
| RowOrder.SortRowsOfSorted | get_excel_data_curr/gen_excel_data_v1.py:109 | rows already in order come back unchanged |
| RowOrder.SortRowsIdempotent | get_excel_data_curr/gen_excel_data_v1.py:109 | sorting twice is sorting once |
| RowOrder.WithKeyInsert | get_excel_data_curr/gen_excel_data_v1.py:109 | inserting into sorted rows places the new row after every row with the same key |
| RowOrder.SortRowsStable | get_excel_data_curr/gen_excel_data_v1.py:109 | `list.sort` is stable: the rows sharing any one key come out in their input order |
| RowOrder.StableStep | get_excel_data_curr/gen_excel_data_v1.py:109 | one insertion keeps the rows of each key in input order |
| Report.RelabelledSpec | get_excel_data_curr/gen_excel_data_v1.py:87-89 | the relabel loop succeeds iff every building with rows has an integer key. Then each room becomes `<label>-<room>` and nothing else changes; otherwise the error names the first bad key |
| Report.RelabelRows | get_excel_data_curr/gen_excel_data_v1.py:88-89 | each row's room becomes `<label>-<room>` (definition; RelabelledSpec states it for the loop) |
| Report.RelabelOne | get_excel_data_curr/gen_excel_data_v1.py:88-89 | one building fails on a bad key with rows, else is relabelled |
| Report.RelabelRooms | get_excel_data_curr/gen_excel_data_v1.py:87-89 | the loop computes the relabelling of every building, or the first error |
| Report.RelabelRowsSnoc | get_excel_data_curr/gen_excel_data_v1.py:88-89 | relabelling one more row appends that row relabelled |
| Report.RelabelledFails | get_excel_data_curr/gen_excel_data_v1.py:87-89 | a bad key with rows after good ones is the error of the whole loop |
| Report.RelabelledSucceeds | get_excel_data_curr/gen_excel_data_v1.py:87-89 | when no building has a bad key with rows, the loop's output is the relabelling |
| Report.Concat | get_excel_data_curr/gen_excel_data_v1.py:94-95 | a row is in `all_data` exactly when it is in some building's list |
| Report.FlattenRows | get_excel_data_curr/gen_excel_data_v1.py:94-95 | the `+=` loop builds that concatenation |
| Report.TitleLabels | get_excel_data_curr/gen_excel_data_v1.py:114-117 | every key converts iff all are integers; the labels are then those of the keys in order, else the error names the first bad key |
| Report.SheetTitle | get_excel_data_curr/gen_excel_data_v1.py:113-121 | the title has at most 31 characters. It is the `-`-join when that fits; otherwise it is a prefix of `<first>至<last>栋(<n>栋)`, cut to exactly 31 or whole |
| Report.InstituteCellVersusSortLabel | get_excel_data_curr/gen_excel_data_v1.py:101-146 | column B and the sort key agree except for unconfigured one-character names, which column B doubles |
| Report.InstituteCell | get_excel_data_curr/gen_excel_data_v1.py:139-146 | column B: the configured name, else the first two and last two characters (definition; compared with the sort label by InstituteCellVersusSortLabel) |
| Report.InstitutesWithoutConfig | get_excel_data_curr/main.py:124 | with the empty `data_cfg` the caller passes, column B is the first two plus last two characters (the name twice when shorter than 2) and the sort label is the same for names of length 2 or more, the name itself otherwise |
| Report.Stamps | get_excel_data_curr/gen_excel_data_v1.py:135 | one parse result per row; each parsed time is a valid date and time |
| Report.StampAt | get_excel_data_curr/gen_excel_data_v1.py:135 | the k-th stamp is the parse of row k's `passTimeText` |
| Report.RowCells | get_excel_data_curr/gen_excel_data_v1.py:132-185 | a data row has one cell per header column |
| Report.TimeCellOfFormat | get_excel_data_curr/gen_excel_data_v1.py:185 | characters 10..16 of a formatted timestamp are `" HH:MM"`, the leading space kept |
| Report.RowCellsOfTimestamp | get_excel_data_curr/gen_excel_data_v1.py:135-185 | for a well-formed time, the date cell is `<month>.<day>` without zero padding and the time cell is the six characters `" HH:MM"` |
| Report.BodyRows | get_excel_data_curr/gen_excel_data_v1.py:132-190 | rows are written iff every pass time parses, one row per record; otherwise the error carries an unparsable time |
| Report.MaxLen | get_excel_data_curr/gen_excel_data_v1.py:235-240 | `max_length` bounds every cell of the column and is attained by one (or 0) |
| Report.Widths | get_excel_data_curr/gen_excel_data_v1.py:234-244 | one width per header column |
| Report.WidthsBound | get_excel_data_curr/gen_excel_data_v1.py:243 | each width is even and at least twice any cell length plus 4 |
| Report.MaxLenStep | get_excel_data_curr/gen_excel_data_v1.py:235-240 | the inner loop's maximum over k+1 rows is that over k rows extended by row k's cell |
| Report.ColumnWidths | get_excel_data_curr/gen_excel_data_v1.py:234-244 | the nested loops compute `(max_length + 2) * 2` per column |
| Report.WrittenOfRows | get_excel_data_curr/gen_excel_data_v1.py:132-190 | with every time parsed, the grid is the header plus the rows, and widths exist iff there is a data row |
| Report.BodyRowsOfGrid | get_excel_data_curr/gen_excel_data_v1.py:132-190 | the rows written below the header are one per record, from its parsed time |
| Report.CellsOfBody | get_excel_data_curr/gen_excel_data_v1.py:132-190 | sheet row k + 2 holds record k with its parsed pass time |
| Report.WrittenOfBadStamp | get_excel_data_curr/gen_excel_data_v1.py:135 | the first unparsable time is the error reported |
| Report.Written | get_excel_data_curr/gen_excel_data_v1.py:123-190 | the grid and last widths of the `idx` loop as a value (definition; WrittenOfRows, WrittenOfBadStamp and WrittenShape state it) |
| Report.GridStep | get_excel_data_curr/gen_excel_data_v1.py:132-190 | writing row n extends the grid of the first n rows by that row's cells |
| Report.WriteRows | get_excel_data_curr/gen_excel_data_v1.py:123-190 | the `idx` loop produces exactly the specified grid and the last `set_style` widths, or the parse error |
| Report.DateRangeOfRequest | get_excel_data_curr/gen_excel_data_v1.py:194-197 | with both request dates, the range is `(<m>.<d>-<m>.<d>)` of those dates, unpadded |
| Report.DateRangeOfClock | get_excel_data_curr/gen_excel_data_v1.py:198-201 | without them, it is yesterday's and today's month and day |
| Report.DateRange | get_excel_data_curr/gen_excel_data_v1.py:194-201 | the `(<m>.<d>-<m>.<d>)` text of the request dates when both are given, else of yesterday and today; an unparsable request date is an error (definition; DateRangeOfRequest and DateRangeOfClock state it) |
| Report.FilePath | get_excel_data_curr/gen_excel_data_v1.py:203-211 | `./result-files/<user>/公寓学生晚归名单<range>.xlsx` (definition; used by CompileParts) |
| Report.ReportRows | get_excel_data_curr/gen_excel_data_v1.py:91-109 | the newest rows per user, concatenated by building and sorted (definition; CompiledSheet and ReportRowsComeFromInput state it) |
| Report.Compile | get_excel_data_curr/gen_excel_data_v1.py:68-217 | what the generator saves, as a value (definition; GenExcelData, CompileNone and CompileParts state it) |
| Report.GenExcelData | get_excel_data_curr/gen_excel_data_v1.py:68-217 | the generator computes the specified workbook (or nothing, or the error) |
| Report.CompileNone | get_excel_data_curr/gen_excel_data_v1.py:78-80 | nothing is produced exactly when the input has no buildings |
| Report.CompileParts | get_excel_data_curr/gen_excel_data_v1.py:87-211 | a produced workbook has the grid of the sorted newest rows, the title of the keys and the path `./result-files/<user>/公寓学生晚归名单<range>.xlsx` |
| Report.WrittenShape | get_excel_data_curr/gen_excel_data_v1.py:123-190 | the grid is the header plus one parsed row per record, with widths iff there are rows |
| Report.CompiledSheet | get_excel_data_curr/gen_excel_data_v1.py:87-190 | the compiled sheet's rows are sorted and a permutation of the newest rows per user. The title has at most 31 characters, each cell row matches its record, and widths exist iff there are rows |
| Report.ReportRowsComeFromInput | get_excel_data_curr/gen_excel_data_v1.py:87-109 | every output row is an input row of some building with its room relabelled |
| Fetcher.GroupId | get_excel_data_curr/t3.py:22-25 | the west group id iff `int(b_num) >= 15`, the central id iff below; an error when `b_num` is not an integer |
| Fetcher.GroupIdOfNumber | get_excel_data_curr/t3.py:22-25 | for the decimal text of n the choice is made on n |
| Fetcher.WindowDates | get_excel_data_curr/t3.py:15-47 | `beginTime` is yesterday's date, a space and startTime; `endTime` is today's date, a space and endTime |
| Fetcher.DateThenTime | get_excel_data_curr/t3.py:15-47 | a formatted date, a space and a time read back as that date and time |
| Fetcher.Window | get_excel_data_curr/t3.py:15-47 | the (`beginTime`, `endTime`) pair: yesterday's and today's ISO date each followed by a space and the request time (definition; WindowDates proves the dates read back) |
| Fetcher.DivBounds | get_excel_data_curr/t3.py:72 | floor division of naturals brackets the dividend (arithmetic step used by TruncDivMeaning) |
| Fetcher.TruncDivMeaning | get_excel_data_curr/t3.py:72 | `int(a / b)` truncates toward zero: magnitude bounds and sign |
| Fetcher.MulMonotone | get_excel_data_curr/t3.py:72 | for i ≤ j, i·y ≤ j·y (not strict); the arithmetic step TruncDivMeaning uses to show that a non-zero quotient means the divisor fits in the dividend |
| Fetcher.PageCountIsCeiling | get_excel_data_curr/t3.py:71-72 | for total ≥ 0 and a positive page size, n·ps ≥ total, (n−1)·ps < total when total > 0, and n = 0 when total = 0 |
| Fetcher.PageCount | get_excel_data_curr/t3.py:72 | `int(total / page_size)`, plus one when the division leaves a remainder; a zero page size is an error (definition; PageCountIsCeiling proves it the ceiling) |
| Fetcher.Deal | get_excel_data_curr/t3.py:5-81 | the loop returns the specified rows and sends the specified requests |
| Fetcher.Fetch | get_excel_data_curr/t3.py:5-81 | the rows and requests of `deal` as a value (definition; Deal, FetchRejected, FetchRequests and FetchPages state its results) |
| Fetcher.FetchRejected | get_excel_data_curr/t3.py:65-81 | a non-200 first response gives an empty list after one request |
| Fetcher.QueriesShape | get_excel_data_curr/t3.py:74-77 | the requests differ from the first only in offset; the offsets after it are 0, ps, 2·ps, … increasing |
| Fetcher.FetchRequests | get_excel_data_curr/t3.py:28-77 | every request has `limit` = page size and starts at offset 0; page k is at k·ps, and the offsets increase |
| Fetcher.FetchPages | get_excel_data_curr/t3.py:65-78 | with a 200 response, page-count + 1 requests are sent; the result holds exactly the rows of the pages, and page i's rows sit at the offset of the pages before it, in order |
| Fetcher.PageStep | get_excel_data_curr/t3.py:73-76 | one more page appends its rows to `all_rows` and its request to those sent |
| Fetcher.PageRowsShape | get_excel_data_curr/t3.py:73-76 | `all_rows` holds each page's answer in place, after the pages before it, and nothing else |
| Fetcher.FlattenShape | get_excel_data_curr/t3.py:76 | a concatenation of pages has their total length, each page at the sum of the earlier lengths, and only their members |
| Seqs.FlattenPart | get_excel_data_curr/t3.py:74-78 | in a concatenation, the i-th part sits at the summed lengths of the parts before it |
| Fetcher.DefaultPageSizeNeverFails | get_excel_data_curr/main.py:120 | with the default page size of 20 the count never divides by zero |
| ConfigTool.Get | get_excel_data_curr/ConfigTool.py:18-20 | the stored value, else the default |
| ConfigTool.GetJson | get_excel_data_curr/ConfigTool.py:22-31 | the parsed value, else the default or `{}`, when the key is missing or the text is not JSON |
| ConfigTool.PageSize | get_excel_data_curr/ConfigTool.py:41-47 | `int(value)` when it parses, 20 when missing or not an integer |
| ConfigTool.PageSizeOfNumber | get_excel_data_curr/ConfigTool.py:41-47 | a stored decimal number reads back as itself |
| ConfigTool.PageSizeOfPaddedNumber | get_excel_data_curr/ConfigTool.py:45 | surrounding whitespace is ignored as `int()` does |
| ConfigTool.Defaults | get_excel_data_curr/ConfigTool.py:33-71 | empty username and password, 23:20:00 and 05:30:00, empty flag, env `test`, page size 20 |
| ConfigTool.Username | get_excel_data_curr/ConfigTool.py:33-35 | `tust_username`, default `''` (definition; Defaults) |
| ConfigTool.Password | get_excel_data_curr/ConfigTool.py:37-39 | `tust_password`, default `''` (definition; Defaults) |
| ConfigTool.BeginTime | get_excel_data_curr/ConfigTool.py:57-59 | `begin_time`, default 23:20:00 (definition; Defaults) |
| ConfigTool.EndTime | get_excel_data_curr/ConfigTool.py:61-63 | `end_time`, default 05:30:00 (definition; Defaults) |
| ConfigTool.Flag | get_excel_data_curr/ConfigTool.py:65-67 | the stored `flag`, default `''` (definition; Defaults) |
| ConfigTool.Env | get_excel_data_curr/ConfigTool.py:69-71 | `env`, default `test` (definition; Defaults) |
| ConfigTool.DataCfg | get_excel_data_curr/ConfigTool.py:49-51 | `data_cfg` as JSON, `{}` when missing or unparsable (definition; GetJson, JsonFallback) |
| ConfigTool.BidDict | get_excel_data_curr/ConfigTool.py:53-55 | `bid_dict` as JSON, `{}` when missing or unparsable (definition; GetJson, JsonFallback) |
| ConfigTool.LocationsFollowEnv | get_excel_data_curr/ConfigTool.py:73-93 | the driver and browser paths come from the `_prod` keys iff env is `prod` |
| ConfigTool.DriverLocation | get_excel_data_curr/ConfigTool.py:73-82 | `chromedriver_path_prod` when env is `prod`, else `chromedriver_path`, default `''` (definition; LocationsFollowEnv) |
| ConfigTool.BinaryLocation | get_excel_data_curr/ConfigTool.py:84-93 | `chrome_binary_path_prod` when env is `prod`, else `chrome_binary_path`, default `''` (definition; LocationsFollowEnv) |
| ConfigTool.JsonFallback | get_excel_data_curr/ConfigTool.py:27-31 | unparsable JSON gives `{}` |
| ConfigTool.LookupAsWritten | get_excel_data_curr/ConfigTool.py:10-20 | a lookup succeeds iff the backing object is a database |
| ConfigTool.MainConfigToolFails | get_excel_data_curr/main.py:16 | a tool built on the path string fails every lookup; on a table it answers as `Get` |
| Tables.FindUser | database/db.py:46-52 | the user found has that name; none iff no row has it |
| Tables.FindUserOfMember | database/db.py:46-52 | with unique names, each row is found by its name |
| Tables.VerifyUser | database/db.py:62-66 | a user is returned iff it exists, is enabled and the password matches exactly |
| Tables.UpdateUsers | database/db.py:68-84 | the table keeps its length |
| Tables.UpdateUsersEffect | database/db.py:68-84 | names stay unique, other users are unchanged and the named user gets the given fields |
| Tables.DecodeEncodeBuildings | database/db.py:86-102 | buildings stored by `set_user_buildings` read back unchanged (the empty list as `''`) |
| Tables.UserBuildings | database/db.py:86-97 | `[]` for a missing user, else the decoded stored list (`[]` for empty or invalid JSON) |
| Tables.WithoutUser | database/db.py:118-126 | exactly the rows of other users remain |
| Tables.WithoutUserUnique | database/db.py:118-126 | names stay unique and the name is gone |
| Tables.Upsert | database/db.py:148-167 | the key gets the value; an existing key keeps its description, a new one gets the given one; other keys unchanged |
| Tables.ConfigDict | database/db.py:169-176 | same keys, each mapped to its value |
| Tables.UpsertReadBack | database/db.py:130-167 | after an upsert `get_config` returns the new value, other keys read as before |
| Tables.FindTask | database/db.py:194-205 | the task found has that id; none iff no row has it |
| Tables.EnabledTasks | database/db.py:207-219 | exactly the tasks with enabled = 1 |
| Tables.EnabledTasksOrdered | database/db.py:207-219 | in increasing id order |
| Tables.UpdateTasks | database/db.py:240-264 | length and ids are kept |
| Tables.UpdateTasksFind | database/db.py:240-264 | after the update, the id finds its old task with the changes applied, and every other id finds what it found before |
| Tables.UpdateTasksEffect | database/db.py:240-264 | on a store with increasing ids the update keeps them increasing, changes the target task by exactly the given fields and leaves every other task |
| Tables.WithoutTask | database/db.py:266-273 | exactly the tasks with another id remain, each an original row |
| Tables.WithoutTaskOrdered | database/db.py:266-273 | remaining ids stay increasing |
| Tables.UpdateLogs | database/db.py:289-300 | the log with that id gets the new status, path and error; others unchanged |
| Tables.UpdateNewestLog | database/db.py:289-300 | updating the newest log changes only that last row |
| Tables.PermissionsOfMembers | database/db.py:360-369 | `p` is among a user's permissions iff `has_permission` holds |
| Tables.PermissionsOf | database/db.py:326-335 | the user's permissions in row order (definition; PermissionsOfMembers ties it to `has_permission`) |
| Tables.HasPermission | database/db.py:360-369 | some row pairs the user with the permission (definition; PermissionsOfMembers) |
| Tables.WithoutPermissionsOf | database/db.py:349 | exactly the other users' rows remain |
| Tables.PermissionsOfWithout | database/db.py:349 | after the delete the user has no permissions |
| Tables.PermissionsOfAppend | database/db.py:350-354 | appending grants appends them to the user's list |
| Tables.ReplacePermissions | database/db.py:345-369 | afterwards the user's list is the new list and `has_permission(u,p)` iff p is in it |
| Tables.ReplaceKeepsOthers | database/db.py:345-369 | other users' permissions are unchanged |
| Db.Database.constructor | database/db.py:8-12 | empty tables, counters at 1 |
| Db.Database.GetUser | database/db.py:46-52 | `get_user` reads the users table (definition; Tables.FindUser states it) |
| Db.Database.GetConfig | database/db.py:130-138 | `get_config` reads the config table with a default (definition; Tables.UpsertReadBack states it) |
| Db.Database.GetEmailTask | database/db.py:194-205 | `get_email_task` reads the tasks table (definition; Tables.FindTask states it) |
| Db.Database.GetEnabledEmailTasks | database/db.py:207-219 | `get_enabled_email_tasks` (definition; Tables.EnabledTasks and EnabledTasksOrdered state it) |
| Db.Database.Allowed | database/db.py:360-369 | `has_permission` on the permissions table (definition; Tables.PermissionsOfMembers states it) |
| Db.Database.UpdateUser | database/db.py:68-84 | no allowed field: False, nothing changes; else only the named user changes, by those fields |
| Db.Database.SetUserBuildings | database/db.py:99-102 | an empty list is stored as `''`; `get_user_buildings` then returns the list |
| Db.Database.CreateUser | database/db.py:104-116 | succeeds iff the name is free; then one enabled row is appended and verifies; else nothing changes |
| Db.Database.DeleteUser | database/db.py:118-126 | the user and all of its permission rows are gone, nothing else |
| Db.Database.SetConfig | database/db.py:148-167 | upsert; `get_config` returns the value |
| Db.Database.CreateEmailTask | database/db.py:221-238 | appends the task with the next id and returns that id |
| Db.Database.UpdateEmailTask | database/db.py:240-264 | no field: False, nothing changes; else True, the task with that id gets the changes, every other id finds the same task, and ids stay increasing |
| Db.Database.DeleteEmailTask | database/db.py:266-273 | the task is gone |
| Db.Database.CreateTaskLog | database/db.py:277-287 | appends a log with the next id |
| Db.Database.UpdateTaskLog | database/db.py:289-300 | sets status, path and error of that log |
| Db.Database.SetUserPermissions | database/db.py:345-358 | the user's permissions become the list, `has_permission` iff listed, others unchanged |
| Db.Database.CreateOperationLog | database/db.py:373-385 | appends one operation-log row |
| TaskManagement.RunLogs | scheduler/task_manager.py:78-88 | one log per task run, each the outcome of that task's run |
| TaskManagement.RunMails | scheduler/task_manager.py:78-88 | one mail outcome per task run |
| TaskManagement.RunOneMore | scheduler/task_manager.py:80-86 | one more task run appends its log and mail |
| TaskManagement.TaskManager.constructor | scheduler/task_manager.py:10-15 | holds the store |
| TaskManagement.TaskManager.ExecuteSingleTask | scheduler/task_manager.py:17-76 | a `running` log is created and then set to the run's outcome, or left `running` when the generator exits (`exited`, since a SystemExit passes `except Exception`); that one log is the only change |
| TaskManagement.TaskManager.ExecuteAllEnabledTasks | scheduler/task_manager.py:78-88 | the enabled tasks run once each, in store order, each leaving its log, up to and including the first whose generator exits; the call ends with `exited` iff some enabled task's generator exits |
| TaskManagement.RunCount | scheduler/task_manager.py:83-84 | how many tasks the loop runs: none of the first n−1 exits, and fewer than all only when task n−1 exits |
| TaskManagement.RunCountAtExit | scheduler/task_manager.py:83-84 | when task k is the first whose generator exits, exactly k+1 tasks run |
| TaskManagement.RunCountWithoutExit | scheduler/task_manager.py:83-84 | when no generator exits, every enabled task runs |
| TaskManagement.LoopEnd | scheduler/task_manager.py:83-84 | at the end of the loop RunCount tasks have run, and the run ended by an exit iff some task exits |
| TaskManagement.OutcomeShape | scheduler/task_manager.py:17-76 | a run ends in exactly one of success, email_failed and failed, or stays `running` iff the generator exits. A mail is attempted iff processing succeeded with a `file_name` key (a path or None), with that value as its one attachment; the logged path is that value iff the sender answered, else None; an error is logged iff the run neither succeeded nor exited |
| TaskManagement.Outcome | scheduler/task_manager.py:28-76 | the log status, path, error and mail of one run (definition; OutcomeShape, SentMeansSuccess, NotSuccessMeansFailed, ExceptionMeansFailed and ExitLeavesRunning state it) |
| TaskManagement.SentMeansSuccess | scheduler/task_manager.py:40-68 | with a `file_name` value (a path or None) the mail carries it as its attachment; a sent mail gives `success` with it as the path, an unsent one `email_failed` with it and the message (a None `file_name` logs a NULL path) |
| TaskManagement.NotSuccessMeansFailed | scheduler/task_manager.py:69-72 | any other status gives `failed` with `msg` or `数据查询失败`, and no mail |
| TaskManagement.ExceptionMeansFailed | scheduler/task_manager.py:74-76 | an `Exception` from the generator gives `failed` with its text |
| TaskManagement.ExitLeavesRunning | scheduler/task_manager.py:24-76 | a generator that exits leaves the log row exactly as `create_task_log` wrote it (`running`, no path, no error) and sends no mail |
| TaskManagement.RequestCarriesTask | scheduler/task_manager.py:30-35 | the request carries the task's buildings, username, start and end time |
| TaskManagement.SubjectParts | scheduler/task_manager.py:46-47 | the subject is the prefix, today's ISO date and ` 公寓学生晚归名单` |
| TaskManagement.Subject | scheduler/task_manager.py:46-47 | the prefix, today's ISO date and ` 公寓学生晚归名单` (definition; SubjectParts takes it apart) |
| TaskManagement.RunLogsFollowTasks | scheduler/task_manager.py:80-86 | log i is for task i, with increasing ids |
| Scheduling.CronOf | scheduler/scheduler.py:37-44 | 5 fields map in order to minute, hour, day, month, day_of_week; any other count gives `0 6 * * *` |
| Scheduling.AddJob | scheduler/scheduler.py:46-57 | `add_job(..., replace_existing=True)`: the job is present and every other job was there before. A new id is appended; an existing id is replaced in place, so the list keeps its length and every job with another id keeps its position |
| Scheduling.Jobs | scheduler/scheduler.py:37-57 | one job per task, in order |
| Scheduling.JobIdInjective | scheduler/scheduler.py:47 | `email_task_<id>` determines the id |
| Scheduling.JobsUnique | scheduler/scheduler.py:46-57 | at most one job per task id |
| Scheduling.SchedulerManager.constructor | scheduler/scheduler.py:9-15 | no scheduler yet |
| Scheduling.SchedulerManager.Start | scheduler/scheduler.py:17-64 | the manager's scheduler becomes `StartOutcome` of the old one: kept when the gate is off or the timezone is refused, else a new scheduler whose jobs are the enabled tasks' jobs (stored and running), or, when some enabled task's cron fields are refused or its name is empty (`add_job` raises `TypeError` for an empty job name), the jobs added before the first such task (pending, not running) |
| Scheduling.SchedulerManager.Stop | scheduler/scheduler.py:66-70 | `shutdown` only of an existing running scheduler; its pending list is empty afterwards |
| Scheduling.SchedulerManager.Reload | scheduler/scheduler.py:72-75 | stop then start: the outcome of starting from the stopped scheduler, including the refusal of a bad cron or an empty task name |
| Scheduling.SchedulerManager.GetJobs | scheduler/scheduler.py:77-88 | `[]` without a scheduler. A running one lists (id, name, next fire time) of every stored job, a permutation ordered by next fire time then id. A stopped one lists `[]` when nothing is pending, else fails with the `next_run_time` attribute error |
| Scheduling.CronOfFiveFields | scheduler/scheduler.py:39-41 | five words joined by spaces split back into the five fields |
| Scheduling.CronOfOtherCount | scheduler/scheduler.py:42-44 | any other word count gives the default fields |
| Scheduling.CronOfSpaced | scheduler/scheduler.py:39-41 | five space-free fields joined by single spaces split back into those fields |
| Scheduling.CronOfDefaultExpression | scheduler/scheduler.py:38 | the default expression gives the default fields |
| Scheduling.DisabledBuildsNothing | scheduler/scheduler.py:20-26 | with the gate off, or a timezone `BackgroundScheduler` refuses, the previous scheduler is kept (none stays none) |
| Scheduling.StartedShape | scheduler/scheduler.py:17-64 | with the gate on and a valid timezone, a scheduler exists with that timezone; it runs iff there are enabled tasks and every one has accepted cron fields and a non-empty name, and then its store holds exactly their jobs |
| Scheduling.StartOutcome | scheduler/scheduler.py:17-64 | the value `start` leaves behind (definition; its properties are StartedShape, RefusedShape, StartedJobsOfTasks and DisabledBuildsNothing) |
| Scheduling.RefusedShape | scheduler/scheduler.py:46-64 | when enabled task k has refused cron fields or an empty name and every task before it is accepted, the new scheduler is not running, has an empty store and holds as pending the jobs of the k tasks before it |
| Scheduling.RefusedReport | scheduler/scheduler.py:46-88 | after such a refusal at k, `get_jobs` lists nothing when k is 0 and otherwise fails on the pending jobs with the `next_run_time` attribute error |
| Scheduling.StartedJobsOfTasks | scheduler/scheduler.py:46-57 | the jobs of a started scheduler, stored or pending, have unique ids and each is `email_task_<id>` of an enabled stored task |
| Scheduling.StoreAllFresh | scheduler/scheduler.py:60 | `start()` moving pending jobs with distinct new ids into the store appends them in order |
| Scheduling.StopListsNoJobs | scheduler/scheduler.py:66-88 | after `shutdown` of a running scheduler `get_jobs` lists nothing |
| Scheduling.StartedListsJobs | scheduler/scheduler.py:60-88 | after a successful start (every enabled task with accepted cron fields and a non-empty name) `get_jobs` lists every enabled task's job once, ordered by next fire time then id |
| Scheduling.Infos | scheduler/scheduler.py:81-87 | one (id, name, next fire time) entry per job, in order |
| Scheduling.InfoLeTotal | scheduler/scheduler.py:77-88 | the (next fire time, id) order of a running job store is total |
| Scheduling.InfoLeTransitive | scheduler/scheduler.py:77-88 | that order is transitive |
| Scheduling.InsertInfo | scheduler/scheduler.py:77-88 | inserting an entry adds exactly that entry |
| Scheduling.SortInfos | scheduler/scheduler.py:77-88 | the listing order is a permutation of the store |
| Scheduling.InsertInfoSorted | scheduler/scheduler.py:77-88 | inserting into an ordered listing keeps it ordered |
| Scheduling.SortInfosSorted | scheduler/scheduler.py:77-88 | the listing comes out ordered by next fire time, then id |
| Auth.LoginRequired | routes/auth.py:8-16 | proceed iff the session names a user, else the login redirect |
| Auth.AdminRequired | routes/auth.py:19-31 | login redirect without a user; dashboard redirect for a missing or non-admin user; proceed iff a stored admin |
| Auth.LoginGuard | routes/auth.py:12-15 | the handler runs on its arguments iff logged in |
| Auth.AdminGuard | routes/auth.py:23-30 | only a stored admin reaches the handler, with unchanged arguments |
| Auth.AdminImpliesLogin | routes/auth.py:8-31 | what admin_required admits, login_required admits |
| Admin.AsFlag | routes/admin.py:56 | 1 iff truthy, else 0 |
| Admin.GetUsers | routes/admin.py:21-28 | one dict per user, in order, with exactly the modelled columns (id, username, role, enabled; the timestamp columns are not modelled) and allowed_buildings, each holding that user's value; `password` is gone |
| Admin.NewUserFields | routes/admin.py:33-39 | refused iff the stripped username or password is empty; else the stripped values and the role (default `user`) |
| Admin.NewUserFieldsStripped | routes/admin.py:35-36 | accepted credentials are non-empty with no surrounding whitespace |
| Admin.CreateUser | routes/admin.py:31-43 | 400 and no user on empty fields or a taken name; else the stripped user is added |
| Admin.UserChangesOf | routes/admin.py:50-57 | the password only when non-blank, stored stripped; enabled coerced to 1/0 |
| Admin.UpdateUser | routes/admin.py:46-58 | the store is updated by those changes |
| Admin.DeleteUser | routes/admin.py:61-67 | deleting oneself gives 400 and deletes nothing; else the user and its permissions go |
| Admin.SetUserPerms | routes/admin.py:84-90 | the user's permissions become the list, or none when absent |
| Admin.NewTaskOf | routes/admin.py:104-115 | every field: a given value passes through; else `''` for name, username and prefix, `[]` for buildings and recipients, 23:20:00, 05:30:00 and `0 6 * * *`; enabled is 1 when absent, else 1 iff truthy |
| Admin.CreateEmailTask | routes/admin.py:101-116 | appends that task with the next id |
| Admin.TaskChangesOf | routes/admin.py:122-129 | every given field is forwarded unchanged, enabled coerced to 1/0 iff truthy; a change exists iff some field is given |
| Admin.UpdateEmailTask | routes/admin.py:119-131 | the store's tasks become the update by those changes: the task with that id gets them, every other id finds the same task, and the other tables are unchanged |
| Admin.DeleteEmailTask | routes/admin.py:134-138 | the task is removed |
| Admin.TriggerTask | routes/admin.py:143-155 | an unknown id gives 404 and runs nothing; else the task runs once and answers success, or gives no answer when the generator exits (the SystemExit passes `except Exception`) |
| Admin.UpdateConfig | routes/admin.py:177-183 | every item is upserted in order |
| Admin.UpsertAllOtherKeys | routes/admin.py:177-183 | keys not in the items read as before |
| Admin.UpsertAllLastWins | routes/admin.py:177-183 | a key reads as its last item's value |
| Admin.SchedulerStatus | routes/admin.py:188-198 | without a manager: not running, no jobs. With one: 500 when `get_jobs` raises (a stopped scheduler with pending jobs), else its running flag and exactly the listed jobs |
| Admin.SchedulerReload | routes/admin.py:201-209 | without a manager 500 and nothing changes; else 200 and the manager's scheduler is the outcome of stop then start, which refuses a bad cron or an empty task name as `start` does |
| App.FilterBuildings | app.py:105-108 | a building is kept iff requested and allowed |
| App.FilterBuildingsAppend | app.py:107-108 | filtering keeps the requested order |
| App.FilterBuildingsAllAllowed | app.py:107-108 | allowed requests pass unchanged |
| App.PermittedQuery | app.py:105-110 | empty allowed list: unchanged; else refused with `没有可操作的楼栋权限` iff no requested building is allowed, otherwise narrowed |
| App.Query | app.py:97-116 | a refusal does not call the generator and logs nothing; otherwise one log `查询楼栋: <joined>` and the generator's answer |
| App.Login | app.py:38-60 | a failed verify leaves the session and redirects to login with a failure log; success stores name and role |
| App.LoginSessionNamesVerifiedUser | app.py:45-57 | the session names a user iff it verified, and then that enabled user with the exact password |
| App.Logout | app.py:77-88 | name and role are dropped; a logout is logged iff a user was named |
| App.CleanFilename | app.py:124 | the cleaned name has no leading `/` |
| App.CleanFilenameOfPrefixed | app.py:124 | one leading `result-files/` is dropped |
| App.CleanFilenameSinglePass | app.py:124 | the replacement is one pass: `result-result-files/files/x` becomes `result-files/x` |
| App.TailHasNoOccurrence | app.py:124 | `files/` followed by a name without the folder has no occurrence of it |
| App.DownloadFile | app.py:119-138 | invalid join: 400; a missing path: 404; else one download log, then the file, or 400 when the path is not a regular file (`send_file` raises) |
| Strings.PyIntOfIntToString | get_excel_data_curr/gen_excel_data_v1.py:89 | `int(str(n)) == n` |
| Strings.PyInt | get_excel_data_curr/ConfigTool.py:45 | `int(s)` on text: surrounding whitespace, an optional sign, ASCII digits with single underscores between them (definition; the lemmas below state it) |
| Strings.ParseDigits | get_excel_data_curr/ConfigTool.py:45 | the digits parse iff they are digit groups joined by single underscores |
| Strings.PyIntOfGroups | get_excel_data_curr/ConfigTool.py:45 | `int('<a>_<b>')` is the value of the digits of a and b together |
| Strings.PyIntRejectsStrayUnderscores | get_excel_data_curr/ConfigTool.py:45 | `_15`, `15_`, `-_15` and `1__5` are refused, as `int()` refuses them |
| Strings.SignedDigitsOfMinus | get_excel_data_curr/ConfigTool.py:45 | a minus sign negates the value of the digits after it |
| Strings.WordsOfJoin | scheduler/scheduler.py:39 | `' '.join(ws).split() == ws` for words |
| Strings.StrLeTotal | get_excel_data_curr/gen_excel_data_v1.py:32-109 | string order is total |
| Strings.StrLeTransitive | get_excel_data_curr/gen_excel_data_v1.py:32-109 | string order is transitive |
| Strings.StrLeAntisymmetric | get_excel_data_curr/gen_excel_data_v1.py:32-109 | string order is antisymmetric |
| Strings.RemoveAllWithoutOccurrence | app.py:124 | `replace` leaves text without the pattern alone |
| Strings.RemoveAllKeepsPrefix | app.py:124 | a prefix where the pattern never starts is kept |
| Strings.LStripChar | app.py:124 | only leading copies of the character are removed |
| Dates.ParseFormatDate | get_excel_data_curr/gen_excel_data_v1.py:195-196 | `strptime` of a formatted date gives the date back |
| Dates.ParseFormatDateTime | get_excel_data_curr/gen_excel_data_v1.py:135 | `strptime` of a formatted timestamp gives it back |
| Dates.ParseDate | get_excel_data_curr/gen_excel_data_v1.py:195 | `strptime(s, '%Y-%m-%d')`: a parsed date is a valid calendar date |
| Dates.ParseDateTime | get_excel_data_curr/gen_excel_data_v1.py:135 | `strptime(s, '%Y-%m-%d %H:%M:%S')`: a parsed timestamp is a valid date and time |
| Dates.ParseUnpaddedDate | get_excel_data_curr/gen_excel_data_v1.py:195 | `%m` and `%d` accept one digit |
| Dates.ParseRejectsFebruary30 | get_excel_data_curr/gen_excel_data_v1.py:195 | impossible dates are refused |
| Dates.NextOfPrevDay | get_excel_data_curr/t3.py:17 | yesterday's next day is today |
| Dates.PrevDayIsBefore | get_excel_data_curr/t3.py:17 | yesterday is before today |
| Dates.MonthDayParts | get_excel_data_curr/gen_excel_data_v1.py:137 | `<month>.<day>` unpadded |

## Left out

- Selenium login, browser driving and `get_building_ids.py`: browser automation with no stateable core.
- HTTP in `t3.deal` is a page oracle; the float division `total_rows / page_size` is modelled as Python's truncating `int()` of an exact quotient, which agrees for the integer sizes seen.
- openpyxl styling (alignment, borders), workbook saving, `os.makedirs`, `os.remove` and `send_file`; only cell texts, title, widths and the path are kept.
- Report.MaxLen, Report.RowCells: openpyxl cuts a cell's text to 32767 characters when it is written, and `set_style` measures the cut text. The model keeps every cell text whole and measures its full length.
- openpyxl refuses cell text holding control characters (`IllegalCharacterError`, for instance in a user name), and then no file is saved; the model writes every cell text.
- The clock: "today", "now" and the per-task clock are parameters; `strftime`/`strptime` are modelled for the two fixed formats only, and a date before year 1 is an error.
- SQLite: connections, SQL text, `created_at`/`updated_at` timestamps. Rows live in sequences; ids come from counters (AUTOINCREMENT), so a deleted id is never reused. schema.sql is not part of this model: its defaults are taken as enabled 1, role `user` and an empty building list.
- `get_task_logs` and `get_operation_logs`: read-only listings ordered by `created_at` timestamp text, which the model does not keep. `get_all_permissions` (`ORDER BY username, permission`) and `get_all_config` (`ORDER BY id`) are read-only listings whose sort the model does not state; the tables are kept in insertion order.
- JSON encoding and decoding: `allowed_buildings` is stored as blank, an encoded list or malformed text; `ConfigTool._get_json` takes the parser as a parameter; request bodies arrive already decoded.
- Tables.UpdateTasks: `update_email_task` and `create_email_task` with a non-list `buildings` value (stored as given) are not modelled; buildings are always a list (`Admin.TaskBody.buildings`).
- Admin.TaskBody: POST and PUT email-tasks store a JSON null or number in `task_name`, `username`, `subject_prefix`, `start_time`, `end_time` or `cron_expression` exactly as given. Every such field is a string in the model, so the later failures are not modelled. Those failures are the scheduler's `start` failing at that task (`None.split()`, or APScheduler's TypeError for a non-string name) and a mail subject that prints `None`.
- Unicode: string length counts code points; no normalisation.
- Strings.PyInt, Strings.PyIntOfIntToString: CPython's `int(str)` and `str(int)` refuse numbers of more than 4300 decimal digits (ValueError, the default `int_max_str_digits`); the model has no such limit. So a `pagesize` of more than 4300 digits reads as its value in ConfigTool.PageSize where the source falls back to 20, and `int(str(n)) == n` is stated for every n. The callers Fetcher.GroupId, Report.RelabelledSpec and Report.TitleLabels accept such building numbers where the source raises.
- Strings.PyInt, Dates.ParseDate, Dates.ParseDateTime: `int()` and `strptime`'s `%Y`…`%S` also accept non-ASCII Unicode decimal digits (full-width `１２`, Arabic-Indic digits); the model accepts ASCII digits only, since the Unicode digit table is not modelled.
- TaskManagement: the source calls `datetime.now()` twice, once for the subject date and once for the body's generation time; one `now` stands for both, so a run that crosses midnight between the two calls is not modelled.
- Fetcher.Window: `t3.deal` also calls `datetime.now()` twice (t3.py:15 and t3.py:17), once for today's date and once for yesterday's; one `today` stands for both, so a fetch that crosses midnight between the two calls is not modelled.
- JSON values of `enabled` are modelled as null, booleans, integers, strings and lists (the other task fields are strings, see Admin.TaskBody); objects and floats are not, so an `enabled` value given as a float or an object (whose truthiness Python decides by its size or value) is not modelled.
- APScheduler: the cron-field and timezone validation are oracles, and the next fire time of each job is a parameter (`nextRun`); the text formatting of `next_run_time` in `get_jobs`, the firing thread itself and `time.sleep` between tasks are left out. A trigger that never fires again (`next_run_time` None, listed last and reported as None) is not modelled: every job has a natural-number next fire time.
- `scheduler/email_sender.py`: the mail sender is an oracle.
- Exceptions raised by the database layer inside the handlers are not modelled; only the task runner's `except` is.
- The `dashboard`, `home` and `admin_page` routes render templates only, and `init_scheduler` only constructs the manager and calls `start`.
- The read-only admin listings `get_permissions`, `get_user_perms`, `get_email_tasks`, `get_task_logs` and `get_config` return store reads unchanged.
- Logging (`log_config.py`) and `print` output.
- The `backup/` copies, which nothing imports.

## Findings

| source | as written | input that shows it | evidently intended | confidence | as-written member | corrected member |
|---|---|---|---|---|---|---|
| get_excel_data_curr/main.py:16 | `ConfigTool("./get_excel_data_curr/config.json")` passes a path string where `ConfigTool.__init__` expects a database (ConfigTool.py:10) | any lookup, e.g. `get_username()` at main.py:19 | build the tool on the configuration store | not executed | ConfigTool.MainConfigToolFails | ConfigTool.Get |
