/**
 * `gen_excel_data_v1` and `set_style` (get_excel_data_curr/gen_excel_data_v1.py):
 * the late-return workbook built from the records of several buildings.
 *
 * The workbook is modelled as its one sheet: a title, a grid of cell texts
 * (row 1 is the header) and the column widths, plus the path it is saved
 * under.  Exceptions the source lets escape become `GenError`s; the clock's
 * date is a parameter.
 */
module Report {
  import opened Wrappers
  import opened Strings
  import opened Dates
  import opened Buildings
  import opened Records
  import opened RowOrder
  import opened Seqs

  datatype GenError =
    | BadBuildingId(key: string)     // int(bid) raised ValueError
    | BadPassTime(text: string)      // strptime of a record's passTimeText raised ValueError
    | BadRequestDate(text: string)   // strptime of startDate or endDate raised ValueError
    | DateOutOfRange                 // now - timedelta(days=1) raised OverflowError

  datatype Sheet = Sheet(title: string, cells: seq<seq<string>>, widths: Option<seq<int>>)

  datatype Workbook = Workbook(path: string, sheet: Sheet)

  // ------------------------------------------------------------ relabelling

  /** One record with its room relabelled by building number n. */
  function RelabelRow(n: int, r: Record): Record {
    r.(roomName := RoomLabel(n, r.roomName))
  }

  function RelabelRows(n: int, rows: seq<Record>): seq<Record> {
    seq(|rows|, k requires 0 <= k < |rows| => RelabelRow(n, rows[k]))
  }

  /** A building whose key `int(bid)` rejects while the loop visits its rows. */
  predicate BadKeyWithRows(b: Building) {
    b.rows != [] && PyInt(b.id).None?
  }

  /** One building after the relabelling loop: rows relabelled by its number. */
  function RelabelBuilding(b: Building): Building
    requires !BadKeyWithRows(b)
  {
    if b.rows == [] then b else Building(b.id, RelabelRows(PyInt(b.id).value, b.rows))
  }

  /** The buildings after the loop that rewrites every `roomName`, or the error of the first bad key. */
  function Relabelled(data: seq<Building>): Result<seq<Building>, GenError> {
    match FirstWhere(data, BadKeyWithRows)
      case Some(i) => Err(BadBuildingId(data[i].id))
      case None => Ok(seq(|data|, i requires 0 <= i < |data| => RelabelBuilding(data[i])))
  }

  /**
   * The relabelling loop succeeds exactly when every building with records has
   * an integer key; then each building keeps its key and records, and every
   * room becomes `<label>-<room>`.  Otherwise the error names the first such
   * key that is not an integer.
   */
  lemma RelabelledSpec(data: seq<Building>)
    ensures Relabelled(data).Ok? <==> forall i :: 0 <= i < |data| ==> data[i].rows == [] || PyInt(data[i].id).Some?
    ensures Relabelled(data).Ok? ==>
      var out := Relabelled(data).value;
      |out| == |data| &&
      forall i :: 0 <= i < |data| ==>
        out[i].id == data[i].id && |out[i].rows| == |data[i].rows| &&
        forall k :: 0 <= k < |data[i].rows| ==>
          out[i].rows[k] == data[i].rows[k].(roomName := RoomLabel(PyInt(data[i].id).value, data[i].rows[k].roomName))
    ensures Relabelled(data).Err? ==> exists i :: (0 <= i < |data| && data[i].rows != [] && PyInt(data[i].id).None? &&
      Relabelled(data).error == BadBuildingId(data[i].id) &&
      forall j :: 0 <= j < i ==> data[j].rows == [] || PyInt(data[j].id).Some?)
  {
    match FirstWhere(data, BadKeyWithRows)
      case Some(i) =>
        assert !BadKeyWithRows(data[i]) ==> false;
      case None =>
        forall i | 0 <= i < |data| ensures data[i].rows == [] || PyInt(data[i].id).Some? {
          assert !BadKeyWithRows(data[i]);
        }
  }

  /** The inner relabelling loop, over the rows of one building: `int(bid)` is evaluated for each row. */
  method RelabelOne(b: Building) returns (r: Result<Building, GenError>)
    ensures BadKeyWithRows(b) ==> r == Err(BadBuildingId(b.id))
    ensures !BadKeyWithRows(b) ==> r == Ok(RelabelBuilding(b))
  {
    var newRows: seq<Record> := [];
    var j := 0;
    while j < |b.rows|
      invariant 0 <= j <= |b.rows|
      invariant j > 0 ==> PyInt(b.id).Some?
      invariant j > 0 ==> newRows == RelabelRows(PyInt(b.id).value, b.rows[..j])
      invariant j == 0 ==> newRows == []
    {
      var bid := PyInt(b.id);
      if bid.None? {
        return Err(BadBuildingId(b.id));
      }
      assert b.rows[..j + 1] == b.rows[..j] + [b.rows[j]];
      RelabelRowsSnoc(bid.value, b.rows[..j], b.rows[j]);
      newRows := newRows + [RelabelRow(bid.value, b.rows[j])];
      j := j + 1;
    }
    assert b.rows[..|b.rows|] == b.rows;
    return Ok(Building(b.id, newRows));
  }

  lemma RelabelRowsSnoc(n: int, rows: seq<Record>, x: Record)
    ensures RelabelRows(n, rows + [x]) == RelabelRows(n, rows) + [RelabelRow(n, x)]
  {
    var longer := RelabelRows(n, rows + [x]);
    var shorter := RelabelRows(n, rows) + [RelabelRow(n, x)];
    assert |longer| == |shorter|;
    forall k | 0 <= k < |longer| ensures longer[k] == shorter[k] {
      if k < |rows| {
        assert (rows + [x])[k] == rows[k];
      }
    }
  }

  /** The relabelling loop: `row['roomName'] = '{}-{}'.format(convert_building_show(int(bid)), row['roomName'])`. */
  method RelabelRooms(data: seq<Building>) returns (r: Result<seq<Building>, GenError>)
    ensures r == Relabelled(data)
  {
    var out: seq<Building> := [];
    var i := 0;
    while i < |data|
      invariant 0 <= i <= |data|
      invariant RelabelledPrefix(data, out, i)
    {
      var b := RelabelOne(data[i]);
      if b.Err? {
        RelabelledFails(data, out, i);
        return Err(b.error);
      }
      RelabelledPrefixStep(data, out, i, b.value);
      out := out + [b.value];
      i := i + 1;
    }
    RelabelledSucceeds(data, out);
    return Ok(out);
  }

  /** After i buildings: none had a bad key, and out holds them relabelled. */
  predicate RelabelledPrefix(data: seq<Building>, out: seq<Building>, i: nat)
    requires i <= |data|
  {
    |out| == i && forall j :: 0 <= j < i ==> !BadKeyWithRows(data[j]) && out[j] == RelabelBuilding(data[j])
  }

  lemma RelabelledPrefixStep(data: seq<Building>, out: seq<Building>, i: nat, b: Building)
    requires i < |data| && RelabelledPrefix(data, out, i)
    requires !BadKeyWithRows(data[i]) && b == RelabelBuilding(data[i])
    ensures RelabelledPrefix(data, out + [b], i + 1)
  {
  }

  lemma RelabelledFails(data: seq<Building>, out: seq<Building>, i: nat)
    requires i < |data| && RelabelledPrefix(data, out, i) && BadKeyWithRows(data[i])
    ensures Relabelled(data) == Err(BadBuildingId(data[i].id))
  {
    FirstWhereAt(data, BadKeyWithRows, i);
  }

  lemma RelabelledSucceeds(data: seq<Building>, out: seq<Building>)
    requires RelabelledPrefix(data, out, |data|)
    ensures Relabelled(data) == Ok(out)
  {
    assert FirstWhere(data, BadKeyWithRows).None?;
    var relabelled := seq(|data|, i requires 0 <= i < |data| => RelabelBuilding(data[i]));
    assert relabelled == out;
  }

  // ------------------------------------------------------------- flattening

  /** `all_data`: the records of every building, building after building. */
  function Concat(data: seq<Building>): (all: seq<Record>)
    ensures forall x :: x in all <==> exists i :: 0 <= i < |data| && x in data[i].rows
  {
    if data == [] then []
    else
      var pre := data[..|data| - 1];
      assert forall i :: 0 <= i < |pre| ==> pre[i] == data[i];
      Concat(pre) + data[|data| - 1].rows
  }

  /** `for bid, ret_data in ret_dict_new.items(): all_data += ret_data`. */
  method FlattenRows(data: seq<Building>) returns (all: seq<Record>)
    ensures all == Concat(data)
  {
    all := [];
    var i := 0;
    while i < |data|
      invariant 0 <= i <= |data|
      invariant all == Concat(data[..i])
    {
      assert data[..i + 1][..i] == data[..i];
      all := all + data[i].rows;
      i := i + 1;
    }
    assert data[..|data|] == data;
  }

  /** `process_data(ret_dict)` as a value: the newest record per user in every building. */
  function LatestAll(data: seq<Building>): seq<Building> {
    seq(|data|, i requires 0 <= i < |data| => Building(data[i].id, Latest(data[i].rows)))
  }

  // ------------------------------------------------------------------ title

  /** A key that `int(bid)` rejects. */
  predicate BadKey(b: Building) {
    PyInt(b.id).None?
  }

  /** The labels of all keys of `ret_dict`, or the error of the first key that is not an integer. */
  function TitleLabels(data: seq<Building>): (r: Result<seq<string>, GenError>)
    ensures r.Ok? <==> forall i :: 0 <= i < |data| ==> PyInt(data[i].id).Some?
    ensures r.Ok? ==> (|r.value| == |data| &&
      forall i :: 0 <= i < |data| ==> r.value[i] == BuildingLabel(PyInt(data[i].id).value))
    ensures r.Err? ==> exists i :: 0 <= i < |data| && PyInt(data[i].id).None? && r.error == BadBuildingId(data[i].id) &&
                                   (forall j :: 0 <= j < i ==> PyInt(data[j].id).Some?)
  {
    match FirstWhere(data, BadKey)
      case Some(i) => Err(BadBuildingId(data[i].id))
      case None =>
        assert forall i :: 0 <= i < |data| ==> !BadKey(data[i]);
        Ok(seq(|data|, i requires 0 <= i < |data| => BuildingLabel(PyInt(data[i].id).value)))
  }

  /** Excel's limit on the length of a sheet name. */
  const MaxTitle := 31

  /** `f"{building_list[0]}至{building_list[-1]}栋({len(building_list)}栋)"`. */
  function RangeTitle(labels: seq<string>): string
    requires labels != []
  {
    labels[0] + "至" + labels[|labels| - 1] + "栋(" + NatToString(|labels|) + "栋)"
  }

  /**
   * The sheet title: the labels joined by `-` when that fits in 31
   * characters, else the first-to-last form, cut to 31 characters.
   */
  function SheetTitle(labels: seq<string>): (t: string)
    requires labels != []
    ensures |t| <= MaxTitle
    ensures |Join(labels, "-")| <= MaxTitle ==> t == Join(labels, "-")
    ensures |Join(labels, "-")| > MaxTitle ==>
      t <= RangeTitle(labels) && (|t| == MaxTitle || t == RangeTitle(labels))
  {
    var joined := Join(labels, "-");
    if |joined| <= MaxTitle then joined
    else
      var long := RangeTitle(labels);
      if |long| > MaxTitle then long[..MaxTitle] else long
  }

  // ------------------------------------------------------------------ cells

  const Header: seq<string> := ["日期", "学院", "学号", "姓名", "宿舍号", "年级", "培养层次", "晚归时间"]

  /** Column B: the configured short name, else `name[0:2] + name[-2:]`. */
  function InstituteCell(cfg: map<string, string>, name: string): string {
    if name in cfg then cfg[name] else Slice(name, 0, 2) + LastTwo(name)
  }

  /**
   * Column B and the sort key agree on every institute name except the
   * one-character names that are not configured: the cell doubles them
   * (`"x"` becomes `"xx"`) while the sort key keeps them as they are.
   */
  lemma InstituteCellVersusSortLabel(cfg: map<string, string>, name: string)
    ensures InstituteCell(cfg, name) == InstituteLabel(cfg, name) <==> name in cfg || |name| != 1
    ensures name !in cfg && |name| == 1 ==> InstituteCell(cfg, name) == name + name
  {
    if name !in cfg && |name| == 1 {
      assert |InstituteCell(cfg, name)| == 2;
    }
  }

  /**
   * Without institute names, which is how `main.py` calls the generator (the
   * `data_cfg=None` default becomes `{}`): column B is the first two and the
   * last two characters of the name, a one-character name doubled, and the
   * sort label is the same except that a one-character name stays as it is.
   */
  lemma InstitutesWithoutConfig(name: string)
    ensures InstituteCell(map[], name) == if |name| >= 2 then name[..2] + name[|name| - 2..] else name + name
    ensures InstituteLabel(map[], name) == if |name| >= 2 then name[..2] + name[|name| - 2..] else name
  {
    if |name| < 2 {
      assert Slice(name, 0, 2) == name && LastTwo(name) == name;
    } else {
      assert Slice(name, 0, 2) == name[..2];
    }
  }

  /**
   * `strptime(str(row['passTimeText']), "%Y-%m-%d %H:%M:%S")` for every row,
   * in order; None is the ValueError.
   */
  function Stamps(rows: seq<Record>): (ts: seq<Option<DateTime>>)
    ensures |ts| == |rows|
    ensures forall k :: 0 <= k < |ts| && ts[k].Some? ==> ValidDateTime(ts[k].value)
  {
    if rows == [] then []
    else Stamps(rows[..|rows| - 1]) + [ParseDateTime(rows[|rows| - 1].passTime)]
  }

  lemma {:induction false} StampAt(rows: seq<Record>, k: nat)
    requires k < |rows|
    ensures Stamps(rows)[k] == ParseDateTime(rows[k].passTime)
  {
    if k < |rows| - 1 {
      StampAt(rows[..|rows| - 1], k);
    }
  }

  /** The cells of one data row, A to H, from the record and its parsed pass time. */
  function RowCells(cfg: map<string, string>, r: Record, t: DateTime): (cells: seq<string>)
    requires ValidDateTime(t)
    ensures |cells| == |Header|
  {
    [MonthDay(t.date),
     InstituteCell(cfg, r.institute),
     r.userId,
     r.userName,
     r.roomName,
     r.grade,
     Classify(r.roomName),
     Slice(r.passTime, 10, 16)]
  }

  /** `str(row['passTimeText'])[10:16]` of a formatted timestamp is `" HH:MM"`, space included. */
  lemma TimeCellOfFormat(t: DateTime)
    requires ValidDateTime(t)
    ensures Slice(FormatDateTime(t), 10, 16) == " " + Pad2(t.hour) + ":" + Pad2(t.minute)
  {
    var s := FormatDateTime(t);
    assert s == FormatDate(t.date) + " " + Pad2(t.hour) + ":" + Pad2(t.minute) + ":" + Pad2(t.second);
    assert s[10..16] == " " + Pad2(t.hour) + ":" + Pad2(t.minute);
  }

  /**
   * For a well-formed pass time the row is written: the date cell is
   * `<month>.<day>` without padding, and the time cell keeps the separating
   * space, `" HH:MM"`.
   */
  lemma RowCellsOfTimestamp(cfg: map<string, string>, r: Record, t: DateTime)
    requires ValidDateTime(t) && r.passTime == FormatDateTime(t)
    ensures ParseDateTime(r.passTime) == Some(t)
    ensures RowCells(cfg, r, t)[0] == NatToString(t.date.month) + "." + NatToString(t.date.day)
    ensures RowCells(cfg, r, t)[7] == " " + Pad2(t.hour) + ":" + Pad2(t.minute)
    ensures |RowCells(cfg, r, t)[7]| == 6
  {
    ParseFormatDateTime(t);
    TimeCellOfFormat(t);
  }

  /** The body rows of the sheet, or the error of the first pass time that does not parse. */
  function BodyRows(cfg: map<string, string>, rows: seq<Record>): (r: Result<seq<seq<string>>, GenError>)
    ensures r.Ok? <==> forall k :: 0 <= k < |rows| ==> Stamps(rows)[k].Some?
    ensures r.Ok? ==> (|r.value| == |rows| &&
      forall k :: 0 <= k < |rows| ==> r.value[k] == RowCells(cfg, rows[k], Stamps(rows)[k].value))
    ensures r.Err? ==> exists k :: 0 <= k < |rows| && Stamps(rows)[k].None? && r.error == BadPassTime(rows[k].passTime)
  {
    var ts := Stamps(rows);
    match FirstWhere(ts, IsNone)
      case Some(k) => Err(BadPassTime(rows[k].passTime))
      case None =>
        assert forall k :: 0 <= k < |rows| ==> !IsNone(ts[k]);
        Ok(seq(|rows|, k requires 0 <= k < |rows| => RowCells(cfg, rows[k], ts[k].value)))
  }

  predicate IsNone(t: Option<DateTime>) {
    t.None?
  }

  // ----------------------------------------------------------------- widths

  /** `len(cell.value)`; a column cell missing from a short row counts as nothing. */
  function CellLen(row: seq<string>, c: nat): nat {
    if c < |row| then |row[c]| else 0
  }

  /** `max_length` of column c after the scan of its cells. */
  function MaxLen(grid: seq<seq<string>>, c: nat): (m: nat)
    ensures forall k :: 0 <= k < |grid| ==> CellLen(grid[k], c) <= m
    ensures m == 0 || exists k :: 0 <= k < |grid| && CellLen(grid[k], c) == m
  {
    if grid == [] then 0
    else
      var pre := grid[..|grid| - 1];
      assert forall k :: 0 <= k < |pre| ==> pre[k] == grid[k];
      var m := MaxLen(pre, c);
      var last := CellLen(grid[|grid| - 1], c);
      if last > m then last else m
  }

  /** The width set on every column A..H: `(max_length + 2) * 2`. */
  function Widths(grid: seq<seq<string>>): (w: seq<int>)
    ensures |w| == |Header|
  {
    seq(|Header|, c requires 0 <= c < |Header| => (MaxLen(grid, c) + 2) * 2)
  }

  /** A column is at least twice as wide as its longest cell, with two characters of margin on each side. */
  lemma WidthsBound(grid: seq<seq<string>>, c: nat, k: nat)
    requires c < |Header| && k < |grid|
    ensures Widths(grid)[c] >= 2 * CellLen(grid[k], c) + 4
    ensures Widths(grid)[c] % 2 == 0
  {
  }

  /** One more cell of column c raises the maximum to its length when it is longer. */
  lemma MaxLenStep(grid: seq<seq<string>>, c: nat, k: nat)
    requires k < |grid|
    ensures MaxLen(grid[..k + 1], c) == if CellLen(grid[k], c) > MaxLen(grid[..k], c) then CellLen(grid[k], c) else MaxLen(grid[..k], c)
  {
    assert grid[..k + 1][..k] == grid[..k];
  }

  /** The column-width loop of `set_style`. */
  method ColumnWidths(grid: seq<seq<string>>) returns (widths: seq<int>)
    ensures widths == Widths(grid)
  {
    widths := [];
    var c := 0;
    while c < |Header|
      invariant 0 <= c <= |Header|
      invariant widths == Widths(grid)[..c]
    {
      var maxLength := 0;
      var k := 0;
      while k < |grid|
        invariant 0 <= k <= |grid|
        invariant maxLength == MaxLen(grid[..k], c)
      {
        MaxLenStep(grid, c, k);
        if CellLen(grid[k], c) > maxLength {
          maxLength := CellLen(grid[k], c);
        }
        k := k + 1;
      }
      assert grid[..|grid|] == grid;
      assert Widths(grid)[..c + 1] == Widths(grid)[..c] + [(maxLength + 2) * 2];
      widths := widths + [(maxLength + 2) * 2];
      c := c + 1;
    }
  }

  /**
   * The grid written by the row loop, and the widths of the last `set_style`
   * call: `set_style` runs after every data row, so the widths are those of
   * the whole grid, and there are none when there are no data rows.
   */
  function Written(cfg: map<string, string>, rows: seq<Record>): Result<(seq<seq<string>>, Option<seq<int>>), GenError> {
    match BodyRows(cfg, rows)
      case Err(e) => Err(e)
      case Ok(body) =>
        var grid := [Header] + body;
        Ok((grid, if body == [] then None else Some(Widths(grid))))
  }

  /**
   * When every pass time parses, the grid is the header followed by one row
   * per record, and there are widths exactly when there is a data row.
   */
  lemma WrittenOfRows(cfg: map<string, string>, rows: seq<Record>, grid: seq<seq<string>>)
    requires GridOfFirst(cfg, rows, grid, |rows|)
    ensures Written(cfg, rows) == Ok((grid, if rows == [] then None else Some(Widths(grid))))
  {
    BodyRowsOfGrid(cfg, rows, grid);
    assert grid == [Header] + grid[1..];
  }

  /** The body rows are the grid below its header row. */
  lemma BodyRowsOfGrid(cfg: map<string, string>, rows: seq<Record>, grid: seq<seq<string>>)
    requires GridOfFirst(cfg, rows, grid, |rows|)
    ensures BodyRows(cfg, rows) == Ok(grid[1..])
  {
    forall k | 0 <= k < |rows| ensures Stamps(rows)[k].Some? {
    }
    var body := BodyRows(cfg, rows).value;
    forall k | 0 <= k < |rows| ensures body[k] == grid[1..][k] {
      assert grid[1..][k] == grid[k + 1];
    }
    assert body == grid[1..];
  }

  /** The first pass time that does not parse is the one reported. */
  lemma WrittenOfBadStamp(cfg: map<string, string>, rows: seq<Record>, i: nat)
    requires i < |rows| && Stamps(rows)[i].None?
    requires forall k :: 0 <= k < i ==> Stamps(rows)[k].Some?
    ensures Written(cfg, rows) == Err(BadPassTime(rows[i].passTime))
  {
    FirstWhereAt(Stamps(rows), IsNone, i);
  }

  /** The grid after the header and the first n data rows, each row built from its record and parsed pass time. */
  ghost predicate GridOfFirst(cfg: map<string, string>, rows: seq<Record>, grid: seq<seq<string>>, n: nat)
    requires n <= |rows|
  {
    |grid| == n + 1 && grid[0] == Header &&
    forall k :: 0 <= k < n ==> Stamps(rows)[k].Some? && grid[k + 1] == RowCells(cfg, rows[k], Stamps(rows)[k].value)
  }

  /** Writing row n extends the grid by one row. */
  lemma GridStep(cfg: map<string, string>, rows: seq<Record>, grid: seq<seq<string>>, n: nat, cells: seq<string>)
    requires n < |rows| && GridOfFirst(cfg, rows, grid, n) && Stamps(rows)[n].Some?
    requires cells == RowCells(cfg, rows[n], Stamps(rows)[n].value)
    ensures GridOfFirst(cfg, rows, grid + [cells], n + 1)
  {
    var next := grid + [cells];
    forall k | 0 <= k < n + 1
      ensures Stamps(rows)[k].Some? && next[k + 1] == RowCells(cfg, rows[k], Stamps(rows)[k].value)
    {
      if k == n {
        assert next[k + 1] == cells;
      } else {
        assert next[k + 1] == grid[k + 1];
      }
    }
  }

  /** The header cells and the `idx` loop that writes one row per record and restyles the sheet. */
  method WriteRows(cfg: map<string, string>, rows: seq<Record>) returns (r: Result<(seq<seq<string>>, Option<seq<int>>), GenError>)
    ensures r == Written(cfg, rows)
  {
    var grid := [Header];
    var widths: Option<seq<int>> := None;
    var idx := 2;
    while idx - 2 < |rows|
      invariant 2 <= idx <= |rows| + 2
      invariant GridOfFirst(cfg, rows, grid, idx - 2)
      invariant widths == if idx == 2 then None else Some(Widths(grid))
    {
      var row := rows[idx - 2];
      // `datetime.datetime.strptime(str(row['passTimeText']), "%Y-%m-%d %H:%M:%S")`, by StampAt
      var stamp := Stamps(rows)[idx - 2];
      if stamp.None? {
        WrittenOfBadStamp(cfg, rows, idx - 2);
        return Err(BadPassTime(row.passTime));
      }
      var cells := RowCells(cfg, row, stamp.value);
      GridStep(cfg, rows, grid, idx - 2, cells);
      grid := grid + [cells];
      var w := ColumnWidths(grid);
      widths := Some(w);
      idx := idx + 1;
    }
    WrittenOfRows(cfg, rows, grid);
    return Ok((grid, widths));
  }

  // -------------------------------------------------------------- file name

  /** `request_data.get(key)` is truthy (request_data itself being a non-empty dict). */
  predicate HasDate(request: Option<map<string, string>>, key: string) {
    request.Some? && key in request.value && request.value[key] != ""
  }

  /** `date_range`: from the request's dates when both are given, else yesterday and today. */
  function DateRange(request: Option<map<string, string>>, today: Date): Result<string, GenError>
    requires ValidDate(today)
  {
    if HasDate(request, "startDate") && HasDate(request, "endDate") then
      var s := request.value["startDate"];
      var e := request.value["endDate"];
      match ParseDate(s)
        case None => Err(BadRequestDate(s))
        case Some(sd) =>
          match ParseDate(e)
            case None => Err(BadRequestDate(e))
            case Some(ed) => Ok("(" + MonthDay(sd) + "-" + MonthDay(ed) + ")")
    else if today == FirstDate then Err(DateOutOfRange)
    else Ok("(" + MonthDay(PrevDay(today)) + "-" + MonthDay(today) + ")")
  }

  /** `f'./result-files/{username}/公寓学生晚归名单{date_range}.xlsx'`. */
  function FilePath(username: string, dateRange: string): string {
    "./result-files/" + username + "/" + "公寓学生晚归名单" + dateRange + ".xlsx"
  }

  /** With ISO dates in the request, the file name shows their month and day, unpadded. */
  lemma DateRangeOfRequest(request: map<string, string>, start: Date, end: Date, today: Date)
    requires ValidDate(start) && ValidDate(end) && ValidDate(today)
    requires "startDate" in request && request["startDate"] == FormatDate(start)
    requires "endDate" in request && request["endDate"] == FormatDate(end)
    ensures DateRange(Some(request), today) == Ok("(" + MonthDay(start) + "-" + MonthDay(end) + ")")
  {
    ParseFormatDate(start);
    ParseFormatDate(end);
  }

  /** Without both dates the file name covers yesterday and today. */
  lemma DateRangeOfClock(request: Option<map<string, string>>, today: Date)
    requires ValidDate(today) && today != FirstDate
    requires !HasDate(request, "startDate") || !HasDate(request, "endDate")
    ensures DateRange(request, today) == Ok("(" + MonthDay(PrevDay(today)) + "-" + MonthDay(today) + ")")
    ensures Before(PrevDay(today), today)
  {
    PrevDayIsBefore(today);
  }

  // ---------------------------------------------------------------- compile

  /** The data rows of the report: the newest record per user of every building, sorted. */
  function ReportRows(cfg: map<string, string>, relabelled: seq<Building>): seq<Record> {
    SortRows(cfg, Concat(LatestAll(relabelled)))
  }

  /** What `gen_excel_data_v1` saves, as a value: None for an empty `ret_dict`. */
  function Compile(data: seq<Building>, username: string, cfg: map<string, string>,
                   request: Option<map<string, string>>, today: Date): Result<Option<Workbook>, GenError>
    requires ValidDate(today)
  {
    if data == [] then Ok(None)
    else match Relabelled(data)
      case Err(e) => Err(e)
      case Ok(relabelled) =>
        var rows := ReportRows(cfg, relabelled);
        match TitleLabels(data)
          case Err(e) => Err(e)
          case Ok(labels) =>
            match Written(cfg, rows)
              case Err(e) => Err(e)
              case Ok(written) =>
                match DateRange(request, today)
                  case Err(e) => Err(e)
                  case Ok(range) =>
                    Ok(Some(Workbook(FilePath(username, range), Sheet(SheetTitle(labels), written.0, written.1))))
  }

  /**
   * `gen_excel_data_v1(ret_dict, username, data_cfg, request_data)`:
   * returns None for an empty `ret_dict`, else the saved workbook (whose path
   * is the function's return value).
   */
  method GenExcelData(data: seq<Building>, username: string, cfg: map<string, string>,
                      request: Option<map<string, string>>, today: Date) returns (r: Result<Option<Workbook>, GenError>)
    requires ValidDate(today)
    ensures r == Compile(data, username, cfg, request, today)
  {
    if |data| == 0 {
      return Ok(None);
    }
    var relabelled := RelabelRooms(data);
    if relabelled.Err? {
      return Err(relabelled.error);
    }
    var latest := ProcessData(relabelled.value);
    assert latest == LatestAll(relabelled.value);
    var allData := FlattenRows(latest);
    allData := SortRows(cfg, allData);
    var labels := TitleLabels(data);
    if labels.Err? {
      return Err(labels.error);
    }
    var title := SheetTitle(labels.value);
    var written := WriteRows(cfg, allData);
    if written.Err? {
      return Err(written.error);
    }
    var range := DateRange(request, today);
    if range.Err? {
      return Err(range.error);
    }
    return Ok(Some(Workbook(FilePath(username, range.value), Sheet(title, written.value.0, written.value.1))));
  }

  // ------------------------------------------------------- report properties

  /** An empty `ret_dict` and only an empty one gives no workbook. */
  lemma {:induction false} CompileNone(data: seq<Building>, username: string, cfg: map<string, string>,
                                       request: Option<map<string, string>>, today: Date)
    requires ValidDate(today)
    ensures Compile(data, username, cfg, request, today) == Ok(None) <==> data == []
  {
  }

  /** A saved workbook is made of the relabelled rows, the title labels, the written grid and the date range. */
  lemma CompileParts(data: seq<Building>, username: string, cfg: map<string, string>,
                     request: Option<map<string, string>>, today: Date)
    requires ValidDate(today)
    requires Compile(data, username, cfg, request, today).Ok?
    requires Compile(data, username, cfg, request, today).value.Some?
    ensures data != [] && Relabelled(data).Ok? && TitleLabels(data).Ok? && DateRange(request, today).Ok?
    ensures var w := Compile(data, username, cfg, request, today).value.value;
      Written(cfg, ReportRows(cfg, Relabelled(data).value)) == Ok((w.sheet.cells, w.sheet.widths)) &&
      w.sheet.title == SheetTitle(TitleLabels(data).value) &&
      w.path == FilePath(username, DateRange(request, today).value)
  {
  }

  /** The written grid: the header, then one row per record in order, and widths exactly when there is a record. */
  lemma WrittenShape(cfg: map<string, string>, rows: seq<Record>)
    requires Written(cfg, rows).Ok?
    ensures var (cells, widths) := Written(cfg, rows).value;
      |cells| == |rows| + 1 && cells[0] == Header &&
      (forall k :: 0 <= k < |rows| ==> (ParseDateTime(rows[k].passTime).Some? &&
         cells[k + 1] == RowCells(cfg, rows[k], ParseDateTime(rows[k].passTime).value))) &&
      (widths.Some? <==> rows != [])
  {
    var body := BodyRows(cfg, rows).value;
    var cells := [Header] + body;
    assert Written(cfg, rows).value == (cells, if body == [] then None else Some(Widths(cells)));
    CellsOfBody(cfg, rows, body);
  }

  /** Below the header, row k + 1 holds record k with its parsed pass time. */
  lemma CellsOfBody(cfg: map<string, string>, rows: seq<Record>, body: seq<seq<string>>)
    requires |body| == |rows|
    requires forall k :: 0 <= k < |rows| ==> Stamps(rows)[k].Some? && body[k] == RowCells(cfg, rows[k], Stamps(rows)[k].value)
    ensures forall k :: 0 <= k < |rows| ==>
      (ParseDateTime(rows[k].passTime).Some? &&
       ([Header] + body)[k + 1] == RowCells(cfg, rows[k], ParseDateTime(rows[k].passTime).value))
  {
    var cells := [Header] + body;
    forall k | 0 <= k < |rows|
      ensures ParseDateTime(rows[k].passTime).Some? && cells[k + 1] == RowCells(cfg, rows[k], ParseDateTime(rows[k].passTime).value)
    {
      StampAt(rows, k);
      assert cells[k + 1] == body[k];
    }
  }

  /**
   * A saved workbook: its title fits Excel's limit, row 1 is the header, the
   * data rows are the newest record per user of every building, each once,
   * in ascending (institute label, pass time) order, and the widths are set
   * exactly when there is a data row.
   */
  lemma CompiledSheet(data: seq<Building>, username: string, cfg: map<string, string>,
                      request: Option<map<string, string>>, today: Date)
    requires ValidDate(today)
    requires Compile(data, username, cfg, request, today).Ok?
    requires Compile(data, username, cfg, request, today).value.Some?
    ensures Relabelled(data).Ok?
    ensures var w := Compile(data, username, cfg, request, today).value.value;
      var rows := ReportRows(cfg, Relabelled(data).value);
      |w.sheet.title| <= MaxTitle &&
      SortedBy(cfg, rows) &&
      multiset(rows) == multiset(Concat(LatestAll(Relabelled(data).value))) &&
      |w.sheet.cells| == |rows| + 1 && w.sheet.cells[0] == Header &&
      (forall k :: 0 <= k < |rows| ==> (ParseDateTime(rows[k].passTime).Some? &&
         w.sheet.cells[k + 1] == RowCells(cfg, rows[k], ParseDateTime(rows[k].passTime).value))) &&
      (w.sheet.widths.Some? <==> rows != [])
  {
    CompileParts(data, username, cfg, request, today);
    var rows := ReportRows(cfg, Relabelled(data).value);
    SortRowsSorted(cfg, Concat(LatestAll(Relabelled(data).value)));
    WrittenShape(cfg, rows);
  }

  /**
   * Every data row of the report is the newest record of its user in some
   * building of the input, with the room relabelled by that building's
   * number; so its 培养层次 cell follows the building (ClassifyByBuilding).
   */
  lemma ReportRowsComeFromInput(data: seq<Building>, cfg: map<string, string>, x: Record)
    requires Relabelled(data).Ok?
    requires x in ReportRows(cfg, Relabelled(data).value)
    ensures exists i, y :: (0 <= i < |data| && y in data[i].rows && PyInt(data[i].id).Some? &&
      x == y.(roomName := RoomLabel(PyInt(data[i].id).value, y.roomName)))
  {
    var relabelled := Relabelled(data).value;
    RelabelledSpec(data);
    var all := Concat(LatestAll(relabelled));
    assert x in multiset(SortRows(cfg, all));
    assert x in all;
    var i :| 0 <= i < |relabelled| && x in LatestAll(relabelled)[i].rows;
    var rows := relabelled[i].rows;
    LatestIsNewest(rows);
    var k :| 0 <= k < |Latest(rows)| && Latest(rows)[k] == x;
    assert x in rows;
    var j :| 0 <= j < |rows| && rows[j] == x;
    var y := data[i].rows[j];
    assert y in data[i].rows;
  }
}
