/**
 * A table with an integer primary key, as SQLite stores it: one row per key,
 * rows in ascending key (rowid) order, `INSERT OR REPLACE` replacing the row
 * with the same key, `WHERE` filtering in stored order.
 */
module KeyedTable {
  import opened Wrappers

  /** Keys strictly ascend, so no key occurs twice. */
  predicate Sorted<T(!new)>(rows: seq<T>, key: T -> int) {
    forall i, j :: 0 <= i < j < |rows| ==> key(rows[i]) < key(rows[j])
  }

  /** `INSERT OR REPLACE`: `row` takes the place of the row with its key, or is added in key order. */
  function Upsert<T(!new)>(rows: seq<T>, row: T, key: T -> int): (r: seq<T>)
    requires Sorted(rows, key)
    ensures Sorted(r, key)
    ensures forall x :: x in r <==> x == row || (x in rows && key(x) != key(row))
  {
    if rows == [] then [row]
    else if key(rows[0]) < key(row) then
      var t := Upsert(rows[1..], row, key);
      TailAbove(rows, key);
      ConsSorted(rows[0], t, key);
      assert forall x :: x in rows <==> x == rows[0] || x in rows[1..] by {
        assert rows == [rows[0]] + rows[1..];
      }
      [rows[0]] + t
    else if key(rows[0]) == key(row) then
      TailAbove(rows, key);
      ConsSorted(row, rows[1..], key);
      assert forall x :: x in rows <==> x == rows[0] || x in rows[1..] by {
        assert rows == [rows[0]] + rows[1..];
      }
      [row] + rows[1..]
    else
      TailAbove(rows, key);
      ConsSorted(row, rows, key);
      [row] + rows
  }

  /** `SELECT * WHERE key = k`: the row with that key, or `None`. */
  function Lookup<T(!new)>(rows: seq<T>, k: int, key: T -> int): (r: Option<T>)
    ensures r.Some? ==> r.value in rows && key(r.value) == k
    ensures r.None? ==> forall x :: x in rows ==> key(x) != k
  {
    if rows == [] then None
    else if key(rows[0]) == k then Some(rows[0])
    else Lookup(rows[1..], k, key)
  }

  /** In a keyed table the row with a key is the one `Lookup` finds. */
  lemma LookupFinds<T(!new)>(rows: seq<T>, x: T, key: T -> int)
    requires Sorted(rows, key) && x in rows
    ensures Lookup(rows, key(x), key) == Some(x)
  {
    var r := Lookup(rows, key(x), key);
    var i :| 0 <= i < |rows| && rows[i] == x;
    var j :| 0 <= j < |rows| && rows[j] == r.value;
    assert i == j;
  }

  /** After an upsert the row's key finds the row, and every other key finds what it found before. */
  lemma LookupUpsert<T(!new)>(rows: seq<T>, row: T, key: T -> int)
    requires Sorted(rows, key)
    ensures forall k :: Lookup(Upsert(rows, row, key), k, key) == (if k == key(row) then Some(row) else Lookup(rows, k, key))
  {
    var u := Upsert(rows, row, key);
    forall k
      ensures Lookup(u, k, key) == if k == key(row) then Some(row) else Lookup(rows, k, key)
    {
      if k == key(row) {
        LookupFinds(u, row, key);
      } else if Lookup(rows, k, key).Some? {
        LookupFinds(u, Lookup(rows, k, key).value, key);
      }
    }
  }

  /** `SELECT * WHERE p`: the rows satisfying `p`, in stored order. */
  function Filter<T(!new)>(rows: seq<T>, p: T -> bool): (r: seq<T>)
    ensures forall x :: x in r <==> x in rows && p(x)
    ensures |r| <= |rows|
  {
    if rows == [] then []
    else
      assert forall x :: x in rows <==> x == rows[0] || x in rows[1..] by {
        assert rows == [rows[0]] + rows[1..];
      }
      (if p(rows[0]) then [rows[0]] else []) + Filter(rows[1..], p)
  }

  /** Filtering keeps the stored order. */
  lemma {:induction false} FilterSorted<T(!new)>(rows: seq<T>, p: T -> bool, key: T -> int)
    requires Sorted(rows, key)
    ensures Sorted(Filter(rows, p), key)
  {
    if rows != [] {
      FilterSorted(rows[1..], p, key);
      TailAbove(rows, key);
      if p(rows[0]) {
        ConsSorted(rows[0], Filter(rows[1..], p), key);
      }
    }
  }

  /** In a keyed table every row after the first has a larger key. */
  lemma TailAbove<T(!new)>(rows: seq<T>, key: T -> int)
    requires Sorted(rows, key) && rows != []
    ensures forall x :: x in rows[1..] ==> key(rows[0]) < key(x)
  {
    forall x | x in rows[1..]
      ensures key(rows[0]) < key(x)
    {
      var j :| 0 <= j < |rows[1..]| && rows[1..][j] == x;
      assert rows[j + 1] == x;
    }
  }

  /** A row with a key below all of a keyed table's keys can go in front. */
  lemma ConsSorted<T(!new)>(a: T, t: seq<T>, key: T -> int)
    requires Sorted(t, key)
    requires forall x :: x in t ==> key(a) < key(x)
    ensures Sorted([a] + t, key)
  {
    var r := [a] + t;
    forall i, j | 0 <= i < j < |r|
      ensures key(r[i]) < key(r[j])
    {
      if i == 0 {
        assert r[j] in t;
      } else {
        assert r[i] == t[i - 1] && r[j] == t[j - 1];
      }
    }
  }

  /** `DELETE WHERE key = k`. */
  function Delete<T(!new)>(rows: seq<T>, k: int, key: T -> int): (r: seq<T>)
    requires Sorted(rows, key)
    ensures Sorted(r, key)
    ensures forall x :: x in r <==> x in rows && key(x) != k
  {
    FilterSorted(rows, x => key(x) != k, key);
    Filter(rows, x => key(x) != k)
  }

  /** After the delete the key finds nothing, and every other key finds what it found before. */
  lemma LookupDelete<T(!new)>(rows: seq<T>, k: int, key: T -> int)
    requires Sorted(rows, key)
    ensures forall j :: Lookup(Delete(rows, k, key), j, key) == (if j == k then None else Lookup(rows, j, key))
  {
    var d := Delete(rows, k, key);
    forall j
      ensures Lookup(d, j, key) == if j == k then None else Lookup(rows, j, key)
    {
      if j != k && Lookup(rows, j, key).Some? {
        LookupFinds(d, Lookup(rows, j, key).value, key);
      }
    }
  }

  /** The last row of `rs` with key `k`: the one a batch of upserts leaves behind. */
  function Latest<T(!new)>(rs: seq<T>, k: int, key: T -> int): (r: Option<T>)
    ensures r.Some? ==> r.value in rs && key(r.value) == k
    ensures r.None? ==> forall x :: x in rs ==> key(x) != k
  {
    if rs == [] then None
    else if key(rs[|rs| - 1]) == k then Some(rs[|rs| - 1])
    else
      assert forall x :: x in rs <==> x in rs[..|rs| - 1] || x == rs[|rs| - 1] by {
        assert rs == rs[..|rs| - 1] + [rs[|rs| - 1]];
      }
      Latest(rs[..|rs| - 1], k, key)
  }

  /** `insertAll` with `REPLACE`: the rows upserted one after the other. */
  function UpsertAll<T(!new)>(rows: seq<T>, rs: seq<T>, key: T -> int): (r: seq<T>)
    requires Sorted(rows, key)
    ensures Sorted(r, key)
  {
    if rs == [] then rows else Upsert(UpsertAll(rows, rs[..|rs| - 1], key), rs[|rs| - 1], key)
  }

  /** After a batch of upserts a row is present exactly when it is the batch's last row with its key, or its key is not in the batch and it was present. */
  lemma {:induction false} UpsertAllMembers<T(!new)>(rows: seq<T>, rs: seq<T>, key: T -> int, x: T)
    requires Sorted(rows, key)
    ensures x in UpsertAll(rows, rs, key) <==>
      if Latest(rs, key(x), key).Some? then x == Latest(rs, key(x), key).value else x in rows
  {
    if rs != [] {
      UpsertAllMembers(rows, rs[..|rs| - 1], key, x);
    }
  }

  /** Two keyed tables with the same rows are the same table. */
  lemma {:induction false} SortedEqual<T(!new)>(a: seq<T>, b: seq<T>, key: T -> int)
    requires Sorted(a, key) && Sorted(b, key)
    requires forall x :: x in a <==> x in b
    ensures a == b
  {
    assert a == [] <==> b == [] by {
      if a != [] { assert a[0] in b; }
      if b != [] { assert b[0] in a; }
    }
    if a != [] {
      assert a[0] in b && b[0] in a;
      var i :| 0 <= i < |a| && a[i] == b[0];
      var j :| 0 <= j < |b| && b[j] == a[0];
      assert i == 0 && j == 0;
      forall x | x in a[1..]
        ensures x in b[1..]
      {
        var k :| 0 <= k < |a[1..]| && a[1..][k] == x;
        assert a[k + 1] == x && x in b;
        var m :| 0 <= m < |b| && b[m] == x;
        assert m != 0;
      }
      forall x | x in b[1..]
        ensures x in a[1..]
      {
        var k :| 0 <= k < |b[1..]| && b[1..][k] == x;
        assert b[k + 1] == x && x in a;
        var m :| 0 <= m < |a| && a[m] == x;
        assert m != 0;
      }
      SortedEqual(a[1..], b[1..], key);
      assert a == [a[0]] + a[1..] && b == [b[0]] + b[1..];
    }
  }

  /** Running the same batch of upserts twice leaves what running it once left. */
  lemma UpsertAllIdempotent<T(!new)>(rows: seq<T>, rs: seq<T>, key: T -> int)
    requires Sorted(rows, key)
    ensures UpsertAll(UpsertAll(rows, rs, key), rs, key) == UpsertAll(rows, rs, key)
  {
    var once := UpsertAll(rows, rs, key);
    forall x
      ensures x in UpsertAll(once, rs, key) <==> x in once
    {
      UpsertAllMembers(once, rs, key, x);
      UpsertAllMembers(rows, rs, key, x);
    }
    SortedEqual(UpsertAll(once, rs, key), once, key);
  }

  /** Upserting rows that are all already stored changes nothing. */
  lemma UpsertAllPresent<T(!new)>(rows: seq<T>, rs: seq<T>, key: T -> int)
    requires Sorted(rows, key)
    requires forall x :: x in rs ==> x in rows
    ensures UpsertAll(rows, rs, key) == rows
  {
    forall x
      ensures x in UpsertAll(rows, rs, key) <==> x in rows
    {
      UpsertAllMembers(rows, rs, key, x);
      var l := Latest(rs, key(x), key);
      if l.Some? && x in rows {
        LookupFinds(rows, x, key);
        LookupFinds(rows, l.value, key);
      }
    }
    SortedEqual(UpsertAll(rows, rs, key), rows, key);
  }

  /** `WHERE key >= t`. */
  function AtLeast<T>(key: T -> int, t: int): T -> bool {
    x => key(x) >= t
  }

  /** Filtering a concatenation filters each part. */
  lemma {:induction false} FilterAppend<T(!new)>(a: seq<T>, b: seq<T>, p: T -> bool)
    ensures Filter(a + b, p) == Filter(a, p) + Filter(b, p)
  {
    if a == [] {
      assert a + b == b;
    } else {
      assert (a + b)[0] == a[0] && (a + b)[1..] == a[1..] + b;
      FilterAppend(a[1..], b, p);
    }
  }

  /** A stricter key threshold applied after a looser one is the stricter one alone. */
  lemma {:induction false} FilterAtLeastTwice<T(!new)>(a: seq<T>, key: T -> int, s: int, m: int)
    requires s <= m
    ensures Filter(Filter(a, AtLeast(key, s)), AtLeast(key, m)) == Filter(a, AtLeast(key, m))
  {
    if a != [] {
      FilterAtLeastTwice(a[1..], key, s, m);
      var head := if AtLeast(key, s)(a[0]) then [a[0]] else [];
      FilterAppend(head, Filter(a[1..], AtLeast(key, s)), AtLeast(key, m));
      if AtLeast(key, s)(a[0]) {
        assert [a[0]][1..] == [];
      }
    }
  }

  /** Filtering a list with one more row at the end. */
  lemma FilterSnoc<T(!new)>(init: seq<T>, last: T, p: T -> bool)
    ensures Filter(init + [last], p) == Filter(init, p) + (if p(last) then [last] else [])
  {
    FilterAppend(init, [last], p);
    assert [last][1..] == [];
  }

  /** The latest row of a key in a list with one more row at the end. */
  lemma LatestSnoc<T(!new)>(init: seq<T>, last: T, k: int, key: T -> int)
    ensures Latest(init + [last], k, key) == if key(last) == k then Some(last) else Latest(init, k, key)
  {
    assert (init + [last])[..|init|] == init;
  }

  /** Keeping the rows with keys from `t` up keeps the last row of each such key. */
  lemma {:induction false} LatestAtLeast<T(!new)>(rs: seq<T>, key: T -> int, t: int, k: int)
    ensures Latest(Filter(rs, AtLeast(key, t)), k, key) == if k >= t then Latest(rs, k, key) else None
  {
    if rs != [] {
      var init, last := rs[..|rs| - 1], rs[|rs| - 1];
      assert rs == init + [last];
      LatestAtLeast(init, key, t, k);
      FilterSnoc(init, last, AtLeast(key, t));
      LatestSnoc(init, last, k, key);
      var f := Filter(init, AtLeast(key, t));
      if key(last) >= t {
        LatestSnoc(f, last, k, key);
      } else {
        assert Filter(rs, AtLeast(key, t)) == f + [];
        assert f + [] == f;
      }
    }
  }

  /** Running again the part of a batch of upserts with keys from `t` up changes nothing. */
  lemma UpsertAllAgain<T(!new)>(rows: seq<T>, rs: seq<T>, key: T -> int, t: int)
    requires Sorted(rows, key)
    ensures UpsertAll(UpsertAll(rows, rs, key), Filter(rs, AtLeast(key, t)), key) == UpsertAll(rows, rs, key)
  {
    var once := UpsertAll(rows, rs, key);
    var again := Filter(rs, AtLeast(key, t));
    forall x
      ensures x in UpsertAll(once, again, key) <==> x in once
    {
      UpsertAllMembers(once, again, key, x);
      UpsertAllMembers(rows, rs, key, x);
      LatestAtLeast(rs, key, t, key(x));
      var l := Latest(rs, key(x), key);
      if l.Some? {
        UpsertAllMembers(rows, rs, key, l.value);
      }
    }
    SortedEqual(UpsertAll(once, again, key), once, key);
  }

  /** A row with a key above every stored key goes at the end. */
  lemma UpsertAppends<T(!new)>(rows: seq<T>, row: T, key: T -> int)
    requires Sorted(rows, key)
    requires forall x :: x in rows ==> key(x) < key(row)
    ensures Upsert(rows, row, key) == rows + [row]
  {
    SnocSorted(rows, row, key);
    assert forall x :: x in rows + [row] <==> x == row || x in rows;
    SortedEqual(Upsert(rows, row, key), rows + [row], key);
  }

  /** Appending a row with a key above every key keeps the list sorted. */
  lemma SnocSorted<T(!new)>(rows: seq<T>, row: T, key: T -> int)
    requires Sorted(rows, key)
    requires forall x :: x in rows ==> key(x) < key(row)
    ensures Sorted(rows + [row], key)
  {
    var r := rows + [row];
    forall i, j | 0 <= i < j < |r|
      ensures key(r[i]) < key(r[j])
    {
      assert r[i] == rows[i];
      if j < |rows| {
        assert r[j] == rows[j];
      } else {
        assert rows[i] in rows;
      }
    }
  }

}
