/**
 * Gate records of late returns and `process_data`
 * (get_excel_data_curr/gen_excel_data_v1.py), which keeps, for every student
 * of every building, only the record with the latest pass time.
 *
 * A record's fields are the texts the report prints (`str(row[...])`); the
 * buildings are the entries of the `ret_dict` dictionary, in its order.
 */
module Records {
  import opened Strings

  datatype Record = Record(
    userId: string,
    userName: string,
    roomName: string,
    institute: string,
    grade: string,
    passTime: string)

  /** One entry of `ret_dict`: a building number (the dictionary key) and its records. */
  datatype Building = Building(id: string, rows: seq<Record>)

  /** The user ids of rows, once each, in order of first appearance: the key order of `grouped_data`. */
  function UserIds(rows: seq<Record>): (ids: seq<string>)
    ensures forall i, j :: 0 <= i < j < |ids| ==> ids[i] != ids[j]
  {
    if rows == [] then []
    else
      var ids := UserIds(rows[..|rows| - 1]);
      var u := rows[|rows| - 1].userId;
      if u in ids then ids else ids + [u]
  }

  /** `grouped_data[u]` after the grouping loop: the records of user u, in input order. */
  function Group(rows: seq<Record>, u: string): seq<Record>
  {
    if rows == [] then []
    else
      var g := Group(rows[..|rows| - 1], u);
      if rows[|rows| - 1].userId == u then g + [rows[|rows| - 1]] else g
  }

  /** The ids are exactly the users that occur in rows. */
  lemma {:induction false} UserIdsCover(rows: seq<Record>)
    ensures forall k :: 0 <= k < |rows| ==> rows[k].userId in UserIds(rows)
    ensures forall u :: u in UserIds(rows) ==> exists k :: 0 <= k < |rows| && rows[k].userId == u
  {
    if rows != [] {
      var pre := rows[..|rows| - 1];
      UserIdsCover(pre);
      assert forall k :: 0 <= k < |pre| ==> pre[k] == rows[k];
    }
  }

  /** A group holds exactly the records of its user, in input order. */
  lemma {:induction false} GroupMembers(rows: seq<Record>, u: string)
    ensures forall x :: x in Group(rows, u) ==> x in rows && x.userId == u
    ensures forall k :: 0 <= k < |rows| && rows[k].userId == u ==> rows[k] in Group(rows, u)
  {
    if rows != [] {
      var pre := rows[..|rows| - 1];
      GroupMembers(pre, u);
      assert forall k :: 0 <= k < |pre| ==> pre[k] == rows[k];
    }
  }

  /**
   * The position of `records.sort(key=itemgetter('passTimeText'), reverse=True)[0]`
   * in g: a record with the greatest pass time and, since Python's sort is
   * stable even when reversed, the first of those in input order.
   */
  function FirstMaxIndex(g: seq<Record>): (p: nat)
    requires g != []
    ensures p < |g|
    ensures forall i :: 0 <= i < |g| ==> StrLe(g[i].passTime, g[p].passTime)
    ensures forall j :: 0 <= j < p ==> StrLt(g[j].passTime, g[p].passTime)
  {
    if |g| == 1 then
      StrLeReflexive(g[0].passTime);
      0
    else
      var pre := g[..|g| - 1];
      var p := FirstMaxIndex(pre);
      assert forall i :: 0 <= i < |pre| ==> pre[i] == g[i];
      if StrLt(g[p].passTime, g[|g| - 1].passTime) then
        FirstMaxStepNewer(g, p);
        |g| - 1
      else
        StrLeTotal(g[p].passTime, g[|g| - 1].passTime);
        p
  }

  /** A later record with a strictly greater time than the maximum so far becomes the maximum. */
  lemma FirstMaxStepNewer(g: seq<Record>, p: nat)
    requires |g| >= 2 && p < |g| - 1
    requires forall i :: 0 <= i < |g| - 1 ==> StrLe(g[i].passTime, g[p].passTime)
    requires StrLt(g[p].passTime, g[|g| - 1].passTime)
    ensures forall i :: 0 <= i < |g| ==> StrLe(g[i].passTime, g[|g| - 1].passTime)
    ensures forall j :: 0 <= j < |g| - 1 ==> StrLt(g[j].passTime, g[|g| - 1].passTime)
  {
    var last := g[|g| - 1].passTime;
    StrLeTotal(g[p].passTime, last);
    StrLeReflexive(last);
    forall j | 0 <= j < |g| - 1 ensures StrLe(g[j].passTime, last) && StrLt(g[j].passTime, last) {
      StrLeTransitive(g[j].passTime, g[p].passTime, last);
      if StrLe(last, g[j].passTime) {
        StrLeTransitive(last, g[j].passTime, g[p].passTime);
      }
    }
  }

  /** The record `process_data` keeps from one user's group. */
  function FirstMax(g: seq<Record>): (best: Record)
    requires g != []
    ensures best in g
    ensures forall x :: x in g ==> StrLe(x.passTime, best.passTime)
  {
    g[FirstMaxIndex(g)]
  }

  /** A user who does not occur in rows has an empty group. */
  lemma {:induction false} GroupOfAbsent(rows: seq<Record>, u: string)
    requires u !in UserIds(rows)
    ensures Group(rows, u) == []
  {
    if rows != [] {
      GroupOfAbsent(rows[..|rows| - 1], u);
    }
  }

  /** Every user of rows has a non-empty group. */
  lemma UserIdsHaveGroups(rows: seq<Record>)
    ensures forall u :: u in UserIds(rows) ==> Group(rows, u) != []
  {
    UserIdsCover(rows);
    forall u | u in UserIds(rows) ensures Group(rows, u) != [] {
      GroupMembers(rows, u);
      var k :| 0 <= k < |rows| && rows[k].userId == u;
      assert rows[k] in Group(rows, u);
    }
  }

  /**
   * The records `process_data` keeps for one building: for each user, in
   * order of first appearance, the first record with the latest pass time.
   */
  function Latest(rows: seq<Record>): (out: seq<Record>)
    ensures |out| == |UserIds(rows)|
  {
    var ids := UserIds(rows);
    UserIdsHaveGroups(rows);
    seq(|ids|, k requires 0 <= k < |ids| => FirstMax(Group(rows, ids[k])))
  }

  /**
   * What `process_data` keeps for one building: one record per user, in order
   * of first appearance, taken from the input, with the user's latest time.
   */
  lemma LatestIsNewest(rows: seq<Record>)
    ensures forall k :: 0 <= k < |Latest(rows)| ==> Latest(rows)[k].userId == UserIds(rows)[k]
    ensures forall k :: 0 <= k < |Latest(rows)| ==> Latest(rows)[k] in rows
    ensures forall k, x :: 0 <= k < |Latest(rows)| && x in rows && x.userId == Latest(rows)[k].userId ==>
      StrLe(x.passTime, Latest(rows)[k].passTime)
  {
    var out := Latest(rows);
    var ids := UserIds(rows);
    UserIdsHaveGroups(rows);
    forall k | 0 <= k < |out| ensures out[k].userId == ids[k] && out[k] in rows {
      GroupMembers(rows, ids[k]);
      assert out[k] in Group(rows, ids[k]);
    }
    forall k, x | 0 <= k < |out| && x in rows && x.userId == out[k].userId ensures StrLe(x.passTime, out[k].passTime) {
      var i :| 0 <= i < |rows| && rows[i] == x;
      GroupMembers(rows, ids[k]);
      assert x in Group(rows, ids[k]);
    }
  }

  /** `process_data` keeps exactly one record per user of the building. */
  lemma LatestOnePerUser(rows: seq<Record>)
    ensures forall i, j :: 0 <= i < j < |Latest(rows)| ==> Latest(rows)[i].userId != Latest(rows)[j].userId
    ensures forall x :: x in rows ==> exists k :: 0 <= k < |Latest(rows)| && Latest(rows)[k].userId == x.userId
  {
    var out := Latest(rows);
    var ids := UserIds(rows);
    LatestIsNewest(rows);
    forall x | x in rows ensures exists k :: 0 <= k < |out| && out[k].userId == x.userId {
      var i :| 0 <= i < |rows| && rows[i] == x;
      UserIdsCover(rows);
      assert x.userId in ids;
      var k :| 0 <= k < |ids| && ids[k] == x.userId;
      assert out[k].userId == x.userId;
    }
  }

  /**
   * The kept record is the first of its user's records with the latest pass
   * time: every earlier record of that user has a strictly earlier time.
   */
  lemma LatestIsFirstNewest(rows: seq<Record>, k: int)
    requires 0 <= k < |Latest(rows)|
    ensures exists i :: (0 <= i < |rows| && rows[i] == Latest(rows)[k] &&
      forall j :: 0 <= j < i && rows[j].userId == rows[i].userId ==> StrLt(rows[j].passTime, rows[i].passTime))
  {
    var u := UserIds(rows)[k];
    UserIdsHaveGroups(rows);
    var g := Group(rows, u);
    var p := FirstMaxIndex(g);
    assert Latest(rows)[k] == g[p];
    var i := GroupIndex(rows, u, p);
    forall j | 0 <= j < i && rows[j].userId == rows[i].userId ensures StrLt(rows[j].passTime, rows[i].passTime) {
      var q := GroupRank(rows, u, j, i, p);
    }
  }

  /** The position of the p-th record of a group in rows. */
  function GroupIndex(rows: seq<Record>, u: string, p: int): (i: int)
    requires 0 <= p < |Group(rows, u)|
    ensures 0 <= i < |rows| && rows[i] == Group(rows, u)[p] && rows[i].userId == u
    decreases |rows|
  {
    var pre := rows[..|rows| - 1];
    var g := Group(pre, u);
    if p < |g| then
      var i := GroupIndex(pre, u, p);
      assert rows[i] == pre[i];
      i
    else
      |rows| - 1
  }

  /** The records of u before position i of rows are the group's records before rank p. */
  lemma {:induction false} GroupRank(rows: seq<Record>, u: string, j: int, i: int, p: int) returns (q: int)
    requires 0 <= p < |Group(rows, u)| && i == GroupIndex(rows, u, p)
    requires 0 <= j < i && rows[j].userId == u
    ensures 0 <= q < p && Group(rows, u)[q] == rows[j]
    decreases |rows|
  {
    var pre := rows[..|rows| - 1];
    var g := Group(pre, u);
    assert pre[j] == rows[j];
    if p < |g| {
      q := GroupRank(pre, u, j, i, p);
    } else {
      q := GroupRankInPrefix(pre, u, j);
    }
  }

  /** The rank of a record of u within the group of a prefix. */
  lemma {:induction false} GroupRankInPrefix(rows: seq<Record>, u: string, j: int) returns (q: int)
    requires 0 <= j < |rows| && rows[j].userId == u
    ensures 0 <= q < |Group(rows, u)| && Group(rows, u)[q] == rows[j]
    decreases |rows|
  {
    var pre := rows[..|rows| - 1];
    if j == |rows| - 1 {
      q := |Group(pre, u)|;
    } else {
      assert pre[j] == rows[j];
      q := GroupRankInPrefix(pre, u, j);
    }
  }

  // ------------------------------------------------------------------ method

  /**
   * `records.sort(key=itemgetter('passTimeText'), reverse=True)` followed by
   * `records[0]`, as one pass that replaces the kept record only by a
   * strictly newer one.
   */
  method NewestRecord(g: seq<Record>) returns (best: Record)
    requires g != []
    ensures best == FirstMax(g)
  {
    best := g[0];
    var m := 1;
    while m < |g|
      invariant 1 <= m <= |g|
      invariant best == FirstMax(g[..m])
    {
      FirstMaxSnoc(g, m);
      if StrLt(best.passTime, g[m].passTime) {
        best := g[m];
      }
      m := m + 1;
    }
    assert g[..|g|] == g;
  }

  /** One step of the scan: the next record replaces the maximum only when strictly newer. */
  lemma FirstMaxSnoc(g: seq<Record>, m: nat)
    requires 1 <= m < |g|
    ensures FirstMax(g[..m + 1])
         == if StrLt(FirstMax(g[..m]).passTime, g[m].passTime) then g[m] else FirstMax(g[..m])
  {
    var h := g[..m + 1];
    assert h[..|h| - 1] == g[..m];
    assert h[|h| - 1] == g[m];
    var p := FirstMaxIndex(g[..m]);
    assert h[p] == g[..m][p];
  }

  /**
   * The grouping loop of `process_data`: `grouped_data[record['userId']].append(record)`
   * on a `defaultdict(list)`; ids is the dictionary's key order.
   */
  method GroupByUser(rows: seq<Record>) returns (ids: seq<string>, groups: map<string, seq<Record>>)
    ensures ids == UserIds(rows)
    ensures forall u :: u in groups <==> u in ids
    ensures forall u :: u in groups ==> groups[u] == Group(rows, u)
  {
    ids := [];
    groups := map[];
    var j := 0;
    while j < |rows|
      invariant 0 <= j <= |rows|
      invariant ids == UserIds(rows[..j])
      invariant forall u :: u in groups <==> u in ids
      invariant forall u :: u in groups ==> groups[u] == Group(rows[..j], u)
    {
      var rec := rows[j];
      assert rows[..j + 1][..j] == rows[..j];
      assert rows[..j + 1][j] == rec;
      if rec.userId in groups {
        assert rec.userId in ids;
        groups := groups[rec.userId := groups[rec.userId] + [rec]];
      } else {
        GroupOfAbsent(rows[..j], rec.userId);
        groups := groups[rec.userId := [rec]];
        ids := ids + [rec.userId];
      }
      j := j + 1;
    }
    assert rows[..|rows|] == rows;
  }

  /** The body of `process_data` for one building: group by user, keep each group's newest record. */
  method LatestPerUser(rows: seq<Record>) returns (out: seq<Record>)
    ensures out == Latest(rows)
  {
    var ids, groups := GroupByUser(rows);
    UserIdsHaveGroups(rows);
    ghost var latest := Latest(rows);
    assert forall t :: 0 <= t < |ids| ==> latest[t] == FirstMax(Group(rows, ids[t]));
    out := [];
    var k := 0;
    while k < |ids|
      invariant 0 <= k <= |ids| == |latest|
      invariant out == latest[..k]
    {
      var g := groups[ids[k]];
      assert g == Group(rows, ids[k]);
      var best := NewestRecord(g);
      assert best == latest[k];
      assert latest[..k + 1] == latest[..k] + [best];
      out := out + [best];
      k := k + 1;
    }
  }

  /** `process_data(data)`: every building keeps its key and its newest record per user. */
  method ProcessData(data: seq<Building>) returns (result: seq<Building>)
    ensures |result| == |data|
    ensures forall i :: 0 <= i < |data| ==> result[i] == Building(data[i].id, Latest(data[i].rows))
  {
    result := [];
    var i := 0;
    while i < |data|
      invariant 0 <= i <= |data|
      invariant |result| == i
      invariant forall t :: 0 <= t < i ==> result[t] == Building(data[t].id, Latest(data[t].rows))
    {
      var kept := LatestPerUser(data[i].rows);
      result := result + [Building(data[i].id, kept)];
      i := i + 1;
    }
  }
}
