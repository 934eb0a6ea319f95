/**
 * The record fetcher of get_excel_data_curr/t3.py (`deal`): the late-return
 * records of one building between yesterday's start time and today's end
 * time, read page by page from the gate system.
 *
 * The HTTP exchange is an oracle `server: Query -> Response` (the answer
 * depends on the query only); the clock is the parameter `today`.
 */
module Fetcher {
  import opened Wrappers
  import opened Strings
  import opened Seqs
  import opened Dates
  import opened Records

  /** The building group of the west campus (buildings 15..20, shown as 13..17B). */
  const WestGroupId := "5760ba66b341e2bb968ea7b990fa873d"
  /** The building group of the central campus (buildings 1..14). */
  const CentralGroupId := "851c0092fe8a5c4969fd9e8e2b5200e9"

  /** `deal`'s default `page_size`, the one `main.py` relies on. */
  const DefaultPageSize := 20

  /** What `deal` raises: `OverflowError` for the day before 0001-01-01, `ValueError` from `int(b_num)`, `ZeroDivisionError` from a zero page size. */
  datatype FetchError = ClockOutOfRange | BadBuildingNumber(text: string) | ZeroPageSize

  /** The parameters that vary between requests; the other query fields are constants. */
  datatype Query = Query(offset: int, limit: int, buildingGroupId: string, buildingId: string,
                         beginTime: string, endTime: string)

  /** The part of an answer `deal` reads: the status code, `total` and `rows`. */
  datatype Response = Response(status: int, total: int, rows: seq<Record>)

  // ------------------------------------------------------------ group choice

  /** `building_group_id`: the west group from building 15 on, else the central group. */
  function GroupId(bNum: string): (r: Result<string, FetchError>)
    ensures r.Ok? <==> PyInt(bNum).Some?
    ensures r.Err? ==> r.error == BadBuildingNumber(bNum)
    ensures r.Ok? ==> (r.value == WestGroupId <==> PyInt(bNum).value >= 15)
    ensures r.Ok? ==> (r.value == CentralGroupId <==> PyInt(bNum).value < 15)
  {
    match PyInt(bNum)
      case None => Err(BadBuildingNumber(bNum))
      case Some(n) => Ok(if n >= 15 then WestGroupId else CentralGroupId)
  }

  /** For the decimal text of a building number the choice is by the number itself. */
  lemma GroupIdOfNumber(n: int)
    ensures GroupId(IntToString(n)) == Ok(if n >= 15 then WestGroupId else CentralGroupId)
  {
    PyIntOfIntToString(n);
  }

  // ------------------------------------------------------------- time window

  /** `beginTime` and `endTime`: yesterday's date with the start time, today's date with the end time. */
  function Window(today: Date, startTime: string, endTime: string): (w: (string, string))
    requires ValidDate(today) && today != FirstDate
  {
    (FormatDate(PrevDay(today)) + " " + startTime, FormatDate(today) + " " + endTime)
  }

  /** The window's dates read back as yesterday and today, the earlier first, each followed by its time. */
  lemma WindowDates(today: Date, startTime: string, endTime: string)
    requires ValidDate(today) && today != FirstDate
    ensures var (b, e) := Window(today, startTime, endTime);
      |b| >= 11 && ParseDate(b[..10]) == Some(PrevDay(today)) && b[10] == ' ' && b[11..] == startTime &&
      |e| >= 11 && ParseDate(e[..10]) == Some(today) && e[10] == ' ' && e[11..] == endTime
    ensures Before(PrevDay(today), today)
  {
    DateThenTime(PrevDay(today), startTime);
    DateThenTime(today, endTime);
    PrevDayIsBefore(today);
  }

  /** A formatted date, a space and a time: the first ten characters read back as the date. */
  lemma DateThenTime(d: Date, time: string)
    requires ValidDate(d)
    ensures var s := FormatDate(d) + " " + time;
      |s| >= 11 && ParseDate(s[..10]) == Some(d) && s[10] == ' ' && s[11..] == time
  {
    var s := FormatDate(d) + " " + time;
    assert s[..10] == FormatDate(d);
    ParseFormatDate(d);
  }

  // -------------------------------------------------------------- page count

  function Abs(x: int): nat {
    if x < 0 then -x else x
  }

  lemma DivBounds(x: nat, y: nat)
    requires y > 0
    ensures (x / y) * y <= x < (x / y) * y + y
  {
  }

  /** `int(a / b)`: the quotient rounded toward zero. */
  function TruncDiv(a: int, b: int): int
    requires b != 0
  {
    if (a >= 0) == (b > 0) then Abs(a) / Abs(b) else -(Abs(a) / Abs(b))
  }

  /** The truncated quotient is the whole number of times |b| fits in |a|, with the sign of a / b. */
  lemma TruncDivMeaning(a: int, b: int)
    requires b != 0
    ensures var q := TruncDiv(a, b);
      Abs(q) * Abs(b) <= Abs(a) < Abs(q) * Abs(b) + Abs(b) &&
      (q > 0 ==> (a > 0) == (b > 0)) && (q < 0 ==> (a > 0) != (b > 0))
  {
    var x, y := Abs(a), Abs(b);
    DivBounds(x, y);
    var q := TruncDiv(a, b);
    assert Abs(q) == x / y;
    if q != 0 {
      assert x / y >= 1;
      MulMonotone(1, x / y, y);
      assert x >= y;
    }
  }

  lemma MulMonotone(i: nat, j: nat, y: nat)
    requires i <= j
    ensures i * y <= j * y
  {
  }

  /** `page_num`; Python raises on `total_rows % page_size` when the page size is 0. */
  function PageCount(total: int, pageSize: int): Result<int, FetchError> {
    if pageSize == 0 then Err(ZeroPageSize)
    else if total % pageSize == 0 then Ok(TruncDiv(total, pageSize))
    else Ok(TruncDiv(total, pageSize) + 1)
  }

  /** For a positive page size the page count is the ceiling of total / page size. */
  lemma PageCountIsCeiling(total: int, pageSize: int)
    requires total >= 0 && pageSize > 0
    ensures PageCount(total, pageSize).Ok?
    ensures var n := PageCount(total, pageSize).value;
      n >= 0 && n * pageSize >= total && (total > 0 ==> (n - 1) * pageSize < total) && (total == 0 ==> n == 0)
  {
    var q := total / pageSize;
    var m := total % pageSize;
    assert total == q * pageSize + m && 0 <= m < pageSize;
    assert TruncDiv(total, pageSize) == q;
    if m != 0 {
      assert (q + 1) * pageSize == q * pageSize + pageSize;
    }
  }

  /** `range(page_num)` runs max(page_num, 0) times. */
  function Pages(n: int): nat {
    if n > 0 then n else 0
  }

  // ------------------------------------------------------------------- deal

  /** The first request: offset 0, `limit` the page size. */
  function BaseQuery(groupId: string, buildingId: string, window: (string, string), pageSize: int): Query {
    Query(0, pageSize, groupId, buildingId, window.0, window.1)
  }

  /** The request of page i: `params["offset"] = i * page_size`, nothing else changed. */
  function PageQuery(base: Query, i: nat): Query {
    base.(offset := i * base.limit)
  }

  /** The requests of pages 0 .. n-1 after the first. */
  function PageQueries(base: Query, n: nat): seq<Query> {
    seq(n, i requires 0 <= i < n => PageQuery(base, i))
  }

  /** The rows of pages 0 .. n-1. */
  function PageRows(server: Query -> Response, base: Query, n: nat): seq<seq<Record>> {
    seq(n, i requires 0 <= i < n => server(PageQuery(base, i)).rows)
  }

  /**
   * What `deal` returns, and the requests it sends on the way: the first
   * request is only used for its status and `total` (its rows are dropped),
   * and offset 0 is then fetched again with the other pages.
   */
  function Fetch(server: Query -> Response, buildingId: string, bNum: string,
                 startTime: string, endTime: string, today: Date, pageSize: int): (Result<seq<Record>, FetchError>, seq<Query>)
    requires ValidDate(today)
  {
    if today == FirstDate then (Err(ClockOutOfRange), [])
    else match GroupId(bNum)
      case Err(e) => (Err(e), [])
      case Ok(g) =>
        var base := BaseQuery(g, buildingId, Window(today, startTime, endTime), pageSize);
        var first := server(base);
        if first.status != 200 then (Ok([]), [base])
        else match PageCount(first.total, pageSize)
          case Err(e) => (Err(e), [base])
          case Ok(n) => (Ok(Flatten(PageRows(server, base, Pages(n)))), [base] + PageQueries(base, Pages(n)))
  }

  /** Fetching page i adds its rows after those of the earlier pages, and its request after theirs. */
  lemma PageStep(server: Query -> Response, base: Query, i: nat)
    ensures Flatten(PageRows(server, base, i + 1)) == Flatten(PageRows(server, base, i)) + server(PageQuery(base, i)).rows
    ensures PageQueries(base, i + 1) == PageQueries(base, i) + [PageQuery(base, i)]
  {
    var pages := PageRows(server, base, i + 1);
    assert pages[..i] == PageRows(server, base, i);
  }

  /** `deal(cookie, buildingId, b_num, requst_data, page_size)`. */
  method Deal(server: Query -> Response, buildingId: string, bNum: string,
              startTime: string, endTime: string, today: Date, pageSize: int)
    returns (r: Result<seq<Record>, FetchError>, sent: seq<Query>)
    requires ValidDate(today)
    ensures (r, sent) == Fetch(server, buildingId, bNum, startTime, endTime, today, pageSize)
  {
    if today == FirstDate {
      return Err(ClockOutOfRange), [];
    }
    var window := Window(today, startTime, endTime);
    var group := GroupId(bNum);
    if group.Err? {
      return Err(group.error), [];
    }
    var params := BaseQuery(group.value, buildingId, window, pageSize);
    var base := params;
    var allRows: seq<Record> := [];
    var response := server(params);
    sent := [params];
    if response.status == 200 {
      var pageNum := PageCount(response.total, pageSize);
      if pageNum.Err? {
        return Err(pageNum.error), sent;
      }
      var n := Pages(pageNum.value);
      var i := 0;
      while i < n
        invariant 0 <= i <= n
        invariant params.limit == pageSize && params == base.(offset := params.offset)
        invariant allRows == Flatten(PageRows(server, base, i))
        invariant sent == [base] + PageQueries(base, i)
      {
        params := params.(offset := i * pageSize);
        assert params == PageQuery(base, i);
        response := server(params);
        PageStep(server, base, i);
        allRows := allRows + response.rows;
        sent := sent + [params];
        i := i + 1;
      }
    }
    return Ok(allRows), sent;
  }

  // -------------------------------------------------------------- properties

  /** A first answer other than 200 gives no rows and no further request. */
  lemma FetchRejected(server: Query -> Response, buildingId: string, bNum: string,
                      startTime: string, endTime: string, today: Date, pageSize: int)
    requires ValidDate(today) && today != FirstDate && PyInt(bNum).Some?
    requires server(BaseQuery(GroupId(bNum).value, buildingId, Window(today, startTime, endTime), pageSize)).status != 200
    ensures Fetch(server, buildingId, bNum, startTime, endTime, today, pageSize).0 == Ok([])
    ensures |Fetch(server, buildingId, bNum, startTime, endTime, today, pageSize).1| == 1
  {
  }

  /**
   * The requests sent after a first request with offset 0: each keeps the
   * first one's fields but the offset, request k + 1 asks for offset k times
   * the limit, and with a positive limit those offsets strictly increase.
   */
  lemma QueriesShape(base: Query, n: nat)
    requires base.offset == 0
    ensures var sent := [base] + PageQueries(base, n);
      (forall k :: 0 <= k < |sent| ==> sent[k] == base.(offset := sent[k].offset)) &&
      (forall k :: 0 <= k < |sent| - 1 ==> sent[k + 1].offset == k * base.limit) &&
      (base.limit > 0 ==> forall j, k :: 1 <= j < k < |sent| ==> sent[j].offset < sent[k].offset)
  {
    var sent := [base] + PageQueries(base, n);
    forall k | 0 <= k < |sent| ensures sent[k] == base.(offset := sent[k].offset) {
      if k > 0 { assert sent[k] == PageQuery(base, k - 1); }
    }
    if base.limit > 0 {
      forall j, k | 1 <= j < k < |sent| ensures sent[j].offset < sent[k].offset {
        assert sent[j].offset == (j - 1) * base.limit && sent[k].offset == (k - 1) * base.limit;
        assert (k - 1) * base.limit - (j - 1) * base.limit == (k - j) * base.limit;
      }
    }
  }

  /**
   * The requests `deal` sends: every one has `limit` equal to the page size
   * and the same building, group and window; the first and the second both
   * ask for offset 0, request k + 1 asks for offset k * page size, and with a
   * positive page size the offsets after the first request strictly increase.
   */
  lemma FetchRequests(server: Query -> Response, buildingId: string, bNum: string,
                      startTime: string, endTime: string, today: Date, pageSize: int)
    requires ValidDate(today)
    ensures var sent := Fetch(server, buildingId, bNum, startTime, endTime, today, pageSize).1;
      (forall k :: 0 <= k < |sent| ==> sent[k].limit == pageSize && sent[k] == sent[0].(offset := sent[k].offset)) &&
      (sent != [] ==> sent[0].offset == 0) &&
      (forall k :: 0 <= k < |sent| - 1 ==> sent[k + 1].offset == k * pageSize) &&
      (pageSize > 0 ==> forall j, k :: 1 <= j < k < |sent| ==> sent[j].offset < sent[k].offset)
  {
    if today != FirstDate && PyInt(bNum).Some? {
      var base := BaseQuery(GroupId(bNum).value, buildingId, Window(today, startTime, endTime), pageSize);
      var first := server(base);
      if first.status == 200 && PageCount(first.total, pageSize).Ok? {
        QueriesShape(base, Pages(PageCount(first.total, pageSize).value));
      }
    }
  }

  /**
   * With a 200 first answer whose `total` is not negative and a positive page
   * size, the pages fetched are exactly those covering `total` rows, and the
   * result is their concatenation: page i's rows, in order, right after the
   * rows of the pages before it, and nothing else.
   */
  lemma FetchPages(server: Query -> Response, buildingId: string, bNum: string,
                   startTime: string, endTime: string, today: Date, pageSize: int)
    requires ValidDate(today) && today != FirstDate && PyInt(bNum).Some? && pageSize > 0
    requires var first := server(BaseQuery(GroupId(bNum).value, buildingId, Window(today, startTime, endTime), pageSize));
      first.status == 200 && first.total >= 0
    ensures var base := BaseQuery(GroupId(bNum).value, buildingId, Window(today, startTime, endTime), pageSize);
      var n := PageCount(server(base).total, pageSize).value;
      var (r, sent) := Fetch(server, buildingId, bNum, startTime, endTime, today, pageSize);
      PageCount(server(base).total, pageSize).Ok? &&
      |sent| == n + 1 && n * pageSize >= server(base).total &&
      r == Ok(Flatten(PageRows(server, base, n))) && |r.value| == SumLengths(PageRows(server, base, n)) &&
      (forall i :: 0 <= i < n ==>
        var at := SumLengths(PageRows(server, base, n)[..i]);
        at + |server(PageQuery(base, i)).rows| <= |r.value| &&
        r.value[at..at + |server(PageQuery(base, i)).rows|] == server(PageQuery(base, i)).rows) &&
      forall x :: x in r.value <==> exists i :: 0 <= i < n && x in server(PageQuery(base, i)).rows
  {
    var base := BaseQuery(GroupId(bNum).value, buildingId, Window(today, startTime, endTime), pageSize);
    PageCountIsCeiling(server(base).total, pageSize);
    var n := PageCount(server(base).total, pageSize).value;
    assert Pages(n) == n;
    assert Fetch(server, buildingId, bNum, startTime, endTime, today, pageSize) ==
      (Ok(Flatten(PageRows(server, base, n))), [base] + PageQueries(base, n));
    PageRowsShape(server, base, n);
  }

  /** The rows of n pages: each page's answer in place, right after the pages before it, and nothing else. */
  lemma PageRowsShape(server: Query -> Response, base: Query, n: nat)
    ensures var all := Flatten(PageRows(server, base, n));
      |all| == SumLengths(PageRows(server, base, n)) &&
      (forall i :: 0 <= i < n ==>
        var at := SumLengths(PageRows(server, base, n)[..i]);
        at + |server(PageQuery(base, i)).rows| <= |all| &&
        all[at..at + |server(PageQuery(base, i)).rows|] == server(PageQuery(base, i)).rows) &&
      forall x :: x in all <==> exists i :: 0 <= i < n && x in server(PageQuery(base, i)).rows
  {
    var pages := PageRows(server, base, n);
    FlattenShape(pages);
    assert forall i :: 0 <= i < n ==> pages[i] == server(PageQuery(base, i)).rows;
  }

  /** The concatenation of the pages: its length, where each page sits, and its members. */
  lemma FlattenShape(pages: seq<seq<Record>>)
    ensures |Flatten(pages)| == SumLengths(pages)
    ensures forall i :: 0 <= i < |pages| ==>
      var at := SumLengths(pages[..i]);
      at + |pages[i]| <= |Flatten(pages)| && Flatten(pages)[at..at + |pages[i]|] == pages[i]
    ensures forall x :: x in Flatten(pages) <==> exists i :: 0 <= i < |pages| && x in pages[i]
  {
    FlattenLength(pages);
    forall i | 0 <= i < |pages|
      ensures var at := SumLengths(pages[..i]);
        at + |pages[i]| <= |Flatten(pages)| && Flatten(pages)[at..at + |pages[i]|] == pages[i]
    {
      FlattenPart(pages, i);
    }
    forall x ensures x in Flatten(pages) <==> exists i :: 0 <= i < |pages| && x in pages[i] {
      FlattenMembers(pages, x);
    }
  }

  /** With the default page size of 20 the page count never fails. */
  lemma DefaultPageSizeNeverFails(server: Query -> Response, buildingId: string, bNum: string,
                                  startTime: string, endTime: string, today: Date)
    requires ValidDate(today)
    ensures Fetch(server, buildingId, bNum, startTime, endTime, today, DefaultPageSize).0 != Err(ZeroPageSize)
  {
  }
}
