/**
 * The order of the report's rows: `all_data.sort(key=sort_key)` in
 * get_excel_data_curr/gen_excel_data_v1.py, ascending by (institute label,
 * pass time) under Python's tuple and string comparison, and stable.
 */
module RowOrder {
  import opened Strings
  import opened Records

  /** `institute[-2:]`: the last two characters, or all of a shorter text. */
  function LastTwo(s: string): string {
    if |s| >= 2 then s[|s| - 2..] else s
  }

  /** The institute part of `sort_key`: the configured short name, else the first two and last two characters. */
  function InstituteLabel(cfg: map<string, string>, name: string): string {
    if name in cfg then cfg[name]
    else if |name| >= 2 then name[0..2] + LastTwo(name)
    else name
  }

  type Key = (string, string)

  /** `sort_key(row)`. */
  function SortKey(cfg: map<string, string>, r: Record): Key {
    (InstituteLabel(cfg, r.institute), r.passTime)
  }

  /** Python's `a <= b` on a pair of strings: the first differing component decides. */
  predicate KeyLe(a: Key, b: Key) {
    StrLt(a.0, b.0) || (a.0 == b.0 && StrLe(a.1, b.1))
  }

  /** Python's `a < b` on a pair of strings. */
  predicate KeyLt(a: Key, b: Key) {
    !KeyLe(b, a)
  }

  lemma KeyLeTotal(a: Key, b: Key)
    ensures KeyLe(a, b) || KeyLe(b, a)
  {
    StrLeTotal(a.0, b.0);
    StrLeTotal(a.1, b.1);
    if StrLe(a.0, b.0) && StrLe(b.0, a.0) {
      StrLeAntisymmetric(a.0, b.0);
    }
  }

  lemma KeyLeTransitive(a: Key, b: Key, c: Key)
    requires KeyLe(a, b) && KeyLe(b, c)
    ensures KeyLe(a, c)
  {
    StrLeTotal(a.0, b.0);
    StrLeTotal(b.0, c.0);
    StrLeReflexive(a.0);
    if a.0 == b.0 && b.0 == c.0 {
      StrLeTransitive(a.1, b.1, c.1);
    } else {
      // the first components strictly increase somewhere, so a.0 < c.0
      assert StrLe(a.0, b.0) && StrLe(b.0, c.0);
      StrLeTransitive(a.0, b.0, c.0);
      if StrLe(c.0, a.0) {
        StrLeAntisymmetric(a.0, c.0);
        if a.0 == b.0 {
          StrLeAntisymmetric(b.0, c.0);
        } else {
          StrLeTransitive(b.0, c.0, a.0);
          StrLeAntisymmetric(a.0, b.0);
        }
      }
    }
  }

  /** rows are in ascending order of their sort keys. */
  predicate SortedBy(cfg: map<string, string>, rows: seq<Record>) {
    forall i, j :: 0 <= i < j < |rows| ==> KeyLe(SortKey(cfg, rows[i]), SortKey(cfg, rows[j]))
  }

  /** Places x after every element of t whose key is not greater than x's, as a stable sort does. */
  function Insert(cfg: map<string, string>, x: Record, t: seq<Record>): (r: seq<Record>)
    ensures multiset(r) == multiset(t) + multiset{x}
  {
    if t == [] then [x]
    else if KeyLt(SortKey(cfg, x), SortKey(cfg, t[0])) then [x] + t
    else
      assert t == [t[0]] + t[1..];
      [t[0]] + Insert(cfg, x, t[1..])
  }

  /** `sorted(rows, key=sort_key)`: insertion of each row, in input order, into the sorted prefix. */
  function SortRows(cfg: map<string, string>, rows: seq<Record>): (r: seq<Record>)
    ensures multiset(r) == multiset(rows)
  {
    if rows == [] then []
    else
      assert rows == rows[..|rows| - 1] + [rows[|rows| - 1]];
      Insert(cfg, rows[|rows| - 1], SortRows(cfg, rows[..|rows| - 1]))
  }

  /** Every element of Insert(x, t) is x or an element of t. */
  lemma InsertMembers(cfg: map<string, string>, x: Record, t: seq<Record>)
    ensures forall y :: y in Insert(cfg, x, t) ==> y == x || y in t
  {
    forall y | y in Insert(cfg, x, t) ensures y == x || y in t {
      assert y in multiset(Insert(cfg, x, t));
    }
  }

  /** A key below the first of a sorted sequence is below all of it. */
  lemma SortedPrepend(cfg: map<string, string>, x: Record, t: seq<Record>)
    requires SortedBy(cfg, t)
    requires t != [] ==> KeyLe(SortKey(cfg, x), SortKey(cfg, t[0]))
    ensures SortedBy(cfg, [x] + t)
  {
    var r := [x] + t;
    forall i, j | 0 <= i < j < |r| ensures KeyLe(SortKey(cfg, r[i]), SortKey(cfg, r[j])) {
      if i == 0 && j > 1 {
        KeyLeTransitive(SortKey(cfg, x), SortKey(cfg, t[0]), SortKey(cfg, t[j - 1]));
      }
    }
  }

  /** A key below every element of a sorted sequence can head it. */
  lemma SortedCons(cfg: map<string, string>, y: Record, t: seq<Record>)
    requires SortedBy(cfg, t)
    requires forall z :: z in t ==> KeyLe(SortKey(cfg, y), SortKey(cfg, z))
    ensures SortedBy(cfg, [y] + t)
  {
    var r := [y] + t;
    forall i, j | 0 <= i < j < |r| ensures KeyLe(SortKey(cfg, r[i]), SortKey(cfg, r[j])) {
      assert r[j] == t[j - 1];
      if i > 0 {
        assert r[i] == t[i - 1];
      }
    }
  }

  lemma {:induction false} InsertSorted(cfg: map<string, string>, x: Record, t: seq<Record>)
    requires SortedBy(cfg, t)
    ensures SortedBy(cfg, Insert(cfg, x, t))
  {
    if t == [] {
    } else if KeyLt(SortKey(cfg, x), SortKey(cfg, t[0])) {
      KeyLeTotal(SortKey(cfg, x), SortKey(cfg, t[0]));
      SortedPrepend(cfg, x, t);
    } else {
      var k0 := SortKey(cfg, t[0]);
      var tail := t[1..];
      assert SortedBy(cfg, tail) by {
        forall i, j | 0 <= i < j < |tail| ensures KeyLe(SortKey(cfg, tail[i]), SortKey(cfg, tail[j])) {
          assert tail[i] == t[i + 1] && tail[j] == t[j + 1];
        }
      }
      InsertSorted(cfg, x, tail);
      InsertMembers(cfg, x, tail);
      var rest := Insert(cfg, x, tail);
      forall z | z in rest ensures KeyLe(k0, SortKey(cfg, z)) {
        if z == x {
          KeyLeTotal(SortKey(cfg, x), k0);
        } else {
          var j :| 0 <= j < |tail| && tail[j] == z;
          assert t[j + 1] == z;
        }
      }
      SortedCons(cfg, t[0], rest);
    }
  }

  /** The rows come out in ascending key order. */
  lemma {:induction false} SortRowsSorted(cfg: map<string, string>, rows: seq<Record>)
    ensures SortedBy(cfg, SortRows(cfg, rows))
  {
    if rows != [] {
      SortRowsSorted(cfg, rows[..|rows| - 1]);
      InsertSorted(cfg, rows[|rows| - 1], SortRows(cfg, rows[..|rows| - 1]));
    }
  }

  /** An element whose key is not below the first key of t goes after that first element. */
  lemma InsertSkip(cfg: map<string, string>, x: Record, t: seq<Record>)
    requires t != [] && KeyLe(SortKey(cfg, t[0]), SortKey(cfg, x))
    ensures Insert(cfg, x, t) == [t[0]] + Insert(cfg, x, t[1..])
  {
  }

  /** An element whose key is not below any key of t goes to the end. */
  lemma {:induction false} InsertAtEnd(cfg: map<string, string>, x: Record, t: seq<Record>)
    requires AllAtMost(cfg, t, x)
    ensures Insert(cfg, x, t) == t + [x]
  {
    if t != [] {
      var tail := t[1..];
      InsertSkip(cfg, x, t);
      AllAtMostTail(cfg, t, x);
      InsertAtEnd(cfg, x, tail);
      ConsSnoc(t, x, Insert(cfg, x, t));
    }
  }

  lemma ConsSnoc(t: seq<Record>, x: Record, r: seq<Record>)
    requires t != [] && r == [t[0]] + (t[1..] + [x])
    ensures r == t + [x]
  {
    assert t == [t[0]] + t[1..];
  }

  /** No key of t is above the key of x. */
  predicate AllAtMost(cfg: map<string, string>, t: seq<Record>, x: Record) {
    forall i :: 0 <= i < |t| ==> KeyLe(SortKey(cfg, t[i]), SortKey(cfg, x))
  }

  lemma AllAtMostTail(cfg: map<string, string>, t: seq<Record>, x: Record)
    requires t != [] && AllAtMost(cfg, t, x)
    ensures KeyLe(SortKey(cfg, t[0]), SortKey(cfg, x)) && AllAtMost(cfg, t[1..], x)
  {
    var tail := t[1..];
    forall i | 0 <= i < |tail| ensures KeyLe(SortKey(cfg, tail[i]), SortKey(cfg, x)) {
      assert tail[i] == t[i + 1];
    }
  }

  /** Dropping the last row of a sorted sequence leaves it sorted, and that row is a greatest one. */
  lemma SortedLast(cfg: map<string, string>, rows: seq<Record>)
    requires SortedBy(cfg, rows) && rows != []
    ensures SortedBy(cfg, rows[..|rows| - 1])
    ensures AllAtMost(cfg, rows[..|rows| - 1], rows[|rows| - 1])
  {
    var pre := rows[..|rows| - 1];
    forall i, j | 0 <= i < j < |pre| ensures KeyLe(SortKey(cfg, pre[i]), SortKey(cfg, pre[j])) {
      assert pre[i] == rows[i] && pre[j] == rows[j];
    }
    forall i | 0 <= i < |pre| ensures KeyLe(SortKey(cfg, pre[i]), SortKey(cfg, rows[|rows| - 1])) {
      assert pre[i] == rows[i];
    }
  }

  /**
   * The sort is stable in the sense that it moves nothing without cause: rows
   * already in order come back unchanged (and so sorting twice is sorting once).
   */
  lemma {:induction false} SortRowsOfSorted(cfg: map<string, string>, rows: seq<Record>)
    requires SortedBy(cfg, rows)
    ensures SortRows(cfg, rows) == rows
  {
    if rows != [] {
      var pre := rows[..|rows| - 1];
      var x := rows[|rows| - 1];
      SortedLast(cfg, rows);
      SortRowsOfSorted(cfg, pre);
      InsertAtEnd(cfg, x, pre);
      assert pre + [x] == rows;
    }
  }

  lemma SortRowsIdempotent(cfg: map<string, string>, rows: seq<Record>)
    ensures SortRows(cfg, SortRows(cfg, rows)) == SortRows(cfg, rows)
  {
    SortRowsSorted(cfg, rows);
    SortRowsOfSorted(cfg, SortRows(cfg, rows));
  }

  // -------------------------------------------------------------- stability

  /** The rows whose sort key is k, in their order. */
  function WithKey(cfg: map<string, string>, k: Key, rows: seq<Record>): seq<Record> {
    if rows == [] then []
    else (if SortKey(cfg, rows[0]) == k then [rows[0]] else []) + WithKey(cfg, k, rows[1..])
  }

  lemma {:induction false} WithKeyAppend(cfg: map<string, string>, k: Key, a: seq<Record>, b: seq<Record>)
    ensures WithKey(cfg, k, a + b) == WithKey(cfg, k, a) + WithKey(cfg, k, b)
  {
    if a == [] {
      assert a + b == b;
    } else {
      assert (a + b)[1..] == a[1..] + b;
      WithKeyAppend(cfg, k, a[1..], b);
    }
  }

  /** Rows none of which has key k contribute nothing. */
  lemma {:induction false} WithKeyAbsent(cfg: map<string, string>, k: Key, rows: seq<Record>)
    requires forall i :: 0 <= i < |rows| ==> SortKey(cfg, rows[i]) != k
    ensures WithKey(cfg, k, rows) == []
  {
    if rows != [] {
      WithKeyAbsent(cfg, k, rows[1..]);
    }
  }

  /** No row of sorted rows headed by a key above k has key k. */
  lemma WithKeyAbove(cfg: map<string, string>, k: Key, t: seq<Record>)
    requires SortedBy(cfg, t) && t != [] && KeyLt(k, SortKey(cfg, t[0]))
    ensures WithKey(cfg, k, t) == []
  {
    forall i | 0 <= i < |t| ensures SortKey(cfg, t[i]) != k {
      if i == 0 {
        StrLeReflexive(k.0);
        StrLeReflexive(k.1);
      }
    }
    WithKeyAbsent(cfg, k, t);
  }

  lemma WithKeyOne(cfg: map<string, string>, k: Key, x: Record)
    ensures WithKey(cfg, k, [x]) == if SortKey(cfg, x) == k then [x] else []
  {
    assert [x][1..] == [];
  }

  /** A row that goes in front of sorted rows goes after none of key k. */
  lemma WithKeyInsertFront(cfg: map<string, string>, k: Key, x: Record, t: seq<Record>)
    requires SortedBy(cfg, t) && t != [] && KeyLt(SortKey(cfg, x), SortKey(cfg, t[0]))
    ensures WithKey(cfg, k, [x] + t) == WithKey(cfg, k, t) + WithKey(cfg, k, [x])
  {
    WithKeyAppend(cfg, k, [x], t);
    WithKeyOne(cfg, k, x);
    if SortKey(cfg, x) == k {
      WithKeyAbove(cfg, k, t);
    }
  }

  /** Putting one row in front of two sequences keeps an equation between their key-k rows. */
  lemma WithKeyCons(cfg: map<string, string>, k: Key, y: Record, rest: seq<Record>, tail: seq<Record>, extra: seq<Record>)
    requires WithKey(cfg, k, rest) == WithKey(cfg, k, tail) + extra
    ensures WithKey(cfg, k, [y] + rest) == WithKey(cfg, k, [y] + tail) + extra
  {
    WithKeyAppend(cfg, k, [y], rest);
    WithKeyAppend(cfg, k, [y], tail);
  }

  /** A row that goes after the first of t keeps that first row ahead of the rest. */
  lemma WithKeyInsertStep(cfg: map<string, string>, k: Key, x: Record, t: seq<Record>)
    requires t != [] && !KeyLt(SortKey(cfg, x), SortKey(cfg, t[0]))
    requires WithKey(cfg, k, Insert(cfg, x, t[1..])) == WithKey(cfg, k, t[1..]) + WithKey(cfg, k, [x])
    ensures WithKey(cfg, k, Insert(cfg, x, t)) == WithKey(cfg, k, t) + WithKey(cfg, k, [x])
  {
    var rest := Insert(cfg, x, t[1..]);
    WithKeyCons(cfg, k, t[0], rest, t[1..], WithKey(cfg, k, [x]));
    InsertSkip(cfg, x, t);
    assert [t[0]] + t[1..] == t;
  }

  lemma SortedTail(cfg: map<string, string>, t: seq<Record>)
    requires SortedBy(cfg, t) && t != []
    ensures SortedBy(cfg, t[1..])
  {
    var tail := t[1..];
    forall i, j | 0 <= i < j < |tail| ensures KeyLe(SortKey(cfg, tail[i]), SortKey(cfg, tail[j])) {
      assert tail[i] == t[i + 1] && tail[j] == t[j + 1];
    }
  }

  /** Inserting into sorted rows puts the new row after every row of equal key. */
  lemma {:induction false} WithKeyInsert(cfg: map<string, string>, k: Key, x: Record, t: seq<Record>)
    requires SortedBy(cfg, t)
    ensures WithKey(cfg, k, Insert(cfg, x, t)) == WithKey(cfg, k, t) + WithKey(cfg, k, [x])
  {
    if t == [] {
    } else if KeyLt(SortKey(cfg, x), SortKey(cfg, t[0])) {
      WithKeyInsertFront(cfg, k, x, t);
    } else {
      SortedTail(cfg, t);
      WithKeyInsert(cfg, k, x, t[1..]);
      WithKeyInsertStep(cfg, k, x, t);
    }
  }

  /**
   * `list.sort` is stable: the rows sharing any one sort key come out in the
   * order they went in.
   */
  lemma {:induction false} SortRowsStable(cfg: map<string, string>, rows: seq<Record>, k: Key)
    ensures WithKey(cfg, k, SortRows(cfg, rows)) == WithKey(cfg, k, rows)
  {
    if rows != [] {
      var pre := rows[..|rows| - 1];
      var x := rows[|rows| - 1];
      var sorted := SortRows(cfg, pre);
      assert SortRows(cfg, rows) == Insert(cfg, x, sorted);
      SortRowsStable(cfg, pre, k);
      SortRowsSorted(cfg, pre);
      StableStep(cfg, k, rows, sorted);
    }
  }

  /** One insertion step of the stability proof: inserting the last row of
      `rows` into a sorted sequence with the same `k`-rows as the other rows
      yields the `k`-rows of `rows`. */
  lemma StableStep(cfg: map<string, string>, k: Key, rows: seq<Record>, sorted: seq<Record>)
    requires rows != [] && SortedBy(cfg, sorted)
    requires WithKey(cfg, k, sorted) == WithKey(cfg, k, rows[..|rows| - 1])
    ensures WithKey(cfg, k, Insert(cfg, rows[|rows| - 1], sorted)) == WithKey(cfg, k, rows)
  {
    var pre := rows[..|rows| - 1];
    var x := rows[|rows| - 1];
    WithKeyInsert(cfg, k, x, sorted);
    assert rows == pre + [x];
    WithKeyAppend(cfg, k, pre, [x]);
  }
}
