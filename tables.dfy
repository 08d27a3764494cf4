/** Sequences of rows as SQLite scans them: filtering by a WHERE condition,
    counting, the first match of a `LIMIT 1` lookup, primary keys kept in
    ascending order, and reversal for `ORDER BY id DESC`. */
module Tables {
  import opened Strings

  /** Keys strictly ascending: the rowid order of a table scan, with no duplicate key. */
  predicate Ascending<T>(rows: seq<T>, key: T -> int) {
    forall i, j :: 0 <= i < j < |rows| ==> key(rows[i]) < key(rows[j])
  }

  /** Keys strictly descending. */
  predicate Descending<T>(rows: seq<T>, key: T -> int) {
    forall i, j :: 0 <= i < j < |rows| ==> key(rows[i]) > key(rows[j])
  }

  /** Every key is below `bound` (the next key the table hands out). */
  predicate AllBelow<T>(rows: seq<T>, key: T -> int, bound: int) {
    forall i :: 0 <= i < |rows| ==> key(rows[i]) < bound
  }

  predicate HasKey<T>(rows: seq<T>, key: T -> int, k: int) {
    exists i :: 0 <= i < |rows| && key(rows[i]) == k
  }

  /** `a` is `b` with some elements left out, in the same order. */
  predicate IsSubsequence<T(==)>(a: seq<T>, b: seq<T>)
    decreases |b|
  {
    if b == [] then a == []
    else (a != [] && a[0] == b[0] && IsSubsequence(a[1..], b[1..])) || IsSubsequence(a, b[1..])
  }

  /** The rows for which `keep` holds, in table order. */
  function Filter<T>(rows: seq<T>, keep: T -> bool): (r: seq<T>)
    ensures |r| <= |rows|
    ensures forall i :: 0 <= i < |r| ==> r[i] in rows && keep(r[i])
    ensures forall i :: 0 <= i < |rows| && keep(rows[i]) ==> rows[i] in r
    decreases |rows|
  {
    if rows == [] then []
    else if keep(rows[0]) then [rows[0]] + Filter(rows[1..], keep)
    else Filter(rows[1..], keep)
  }

  lemma {:induction false} FilterSubsequence<T>(rows: seq<T>, keep: T -> bool)
    ensures IsSubsequence(Filter(rows, keep), rows)
    decreases |rows|
  {
    if rows != [] {
      FilterSubsequence(rows[1..], keep);
      if keep(rows[0]) {
        assert Filter(rows, keep)[1..] == Filter(rows[1..], keep);
      }
    }
  }

  /** Filtering a sequence extended by one row extends the filtered sequence
      by that row exactly when it is kept. */
  lemma {:induction false} FilterSnoc<T>(rows: seq<T>, x: T, keep: T -> bool)
    ensures Filter(rows + [x], keep) == Filter(rows, keep) + (if keep(x) then [x] else [])
    decreases |rows|
  {
    if rows != [] {
      assert (rows + [x])[1..] == rows[1..] + [x];
      FilterSnoc(rows[1..], x, keep);
    }
  }

  /** A head below every key of an ascending tail gives an ascending sequence. */
  lemma AscendingCons<T>(h: T, t: seq<T>, key: T -> int)
    requires Ascending(t, key)
    requires forall m :: 0 <= m < |t| ==> key(h) < key(t[m])
    ensures Ascending([h] + t, key)
  {
    var r := [h] + t;
    forall i, j | 0 <= i < j < |r| ensures key(r[i]) < key(r[j]) {
      if i == 0 {
        assert r[j] == t[j - 1];
      } else {
        assert r[i] == t[i - 1] && r[j] == t[j - 1];
      }
    }
  }

  /** The tail of an ascending sequence is ascending and above its head. */
  lemma AscendingTail<T>(rows: seq<T>, key: T -> int)
    requires rows != [] && Ascending(rows, key)
    ensures Ascending(rows[1..], key)
    ensures forall m :: 0 <= m < |rows[1..]| ==> key(rows[0]) < key(rows[1..][m])
  {
    var tail := rows[1..];
    forall i, j | 0 <= i < j < |tail| ensures key(tail[i]) < key(tail[j]) {
      assert tail[i] == rows[i + 1] && tail[j] == rows[j + 1];
    }
    forall m | 0 <= m < |tail| ensures key(rows[0]) < key(tail[m]) {
      assert tail[m] == rows[m + 1];
    }
  }

  /** Filtering keeps the table's key order. */
  lemma {:induction false} FilterAscending<T>(rows: seq<T>, keep: T -> bool, key: T -> int)
    requires Ascending(rows, key)
    ensures Ascending(Filter(rows, keep), key)
    decreases |rows|
  {
    if rows != [] {
      var tail := rows[1..];
      AscendingTail(rows, key);
      FilterAscending(tail, keep, key);
      if keep(rows[0]) {
        var t := Filter(tail, keep);
        forall m | 0 <= m < |t| ensures key(rows[0]) < key(t[m]) {
          assert t[m] in tail;
        }
        AscendingCons(rows[0], t, key);
      }
    }
  }

  /** `SELECT COUNT(*) ... WHERE`: the number of rows for which `keep` holds. */
  function Count<T>(rows: seq<T>, keep: T -> bool): nat
    decreases |rows|
  {
    if rows == [] then 0
    else (if keep(rows[0]) then 1 else 0) + Count(rows[1..], keep)
  }

  /** A count is the size of the matching selection. */
  lemma {:induction false} CountIsFilterSize<T>(rows: seq<T>, keep: T -> bool)
    ensures Count(rows, keep) == |Filter(rows, keep)|
    decreases |rows|
  {
    if rows != [] {
      CountIsFilterSize(rows[1..], keep);
    }
  }

  /** `... WHERE p LIMIT 1`: the first row for which `p` holds, or null. */
  function FindFirst<T>(rows: seq<T>, p: T -> bool): (r: Option<T>)
    ensures r.Some? ==> r.value in rows && p(r.value)
    ensures r.None? ==> forall i :: 0 <= i < |rows| ==> !p(rows[i])
    decreases |rows|
  {
    if rows == [] then None
    else if p(rows[0]) then Some(rows[0])
    else FindFirst(rows[1..], p)
  }

  /** With unique keys, the row found by key is the only row with that key. */
  lemma FindByUniqueKey<T>(rows: seq<T>, key: T -> int, k: int, i: nat)
    requires Ascending(rows, key)
    requires i < |rows| && key(rows[i]) == k
    ensures FindFirst(rows, (x: T) => key(x) == k) == Some(rows[i])
  {
    var r := FindFirst(rows, (x: T) => key(x) == k);
    var j :| 0 <= j < |rows| && rows[j] == r.value;
  }

  /** The rows in reverse order. */
  function Reverse<T>(s: seq<T>): (r: seq<T>)
    ensures |r| == |s|
    ensures forall i :: 0 <= i < |s| ==> r[i] == s[|s| - 1 - i]
    decreases |s|
  {
    if s == [] then [] else Reverse(s[1..]) + [s[0]]
  }

  lemma ReverseAscending<T>(s: seq<T>, key: T -> int)
    requires Ascending(s, key)
    ensures Descending(Reverse(s), key)
    ensures forall x :: x in Reverse(s) <==> x in s
  {
    var r := Reverse(s);
    forall x | x in s ensures x in r {
      var i :| 0 <= i < |s| && s[i] == x;
      assert r[|s| - 1 - i] == x;
    }
  }

  /** Insertion at the position of its key, as SQLite places a row by rowid. */
  function InsertByKey<T>(rows: seq<T>, x: T, key: T -> int): (r: seq<T>)
    ensures |r| == |rows| + 1
    ensures x in r && forall i :: 0 <= i < |rows| ==> rows[i] in r
    ensures forall i :: 0 <= i < |r| ==> r[i] in rows || r[i] == x
    decreases |rows|
  {
    if rows == [] || key(x) < key(rows[0]) then [x] + rows
    else [rows[0]] + InsertByKey(rows[1..], x, key)
  }

  lemma {:induction false} InsertByKeyAscending<T>(rows: seq<T>, x: T, key: T -> int)
    requires Ascending(rows, key) && !HasKey(rows, key, key(x))
    ensures Ascending(InsertByKey(rows, x, key), key)
    decreases |rows|
  {
    if rows == [] || key(x) < key(rows[0]) {
      forall m | 0 <= m < |rows| ensures key(x) < key(rows[m]) {
        if m > 0 {
          assert key(rows[0]) < key(rows[m]);
        }
      }
      AscendingCons(x, rows, key);
    } else {
      var tail := rows[1..];
      AscendingTail(rows, key);
      assert !HasKey(tail, key, key(x));
      InsertByKeyAscending(tail, x, key);
      var t := InsertByKey(tail, x, key);
      forall m | 0 <= m < |t| ensures key(rows[0]) < key(t[m]) {
        if t[m] != x {
          assert t[m] in tail;
        } else {
          assert key(x) != key(rows[0]);
        }
      }
      AscendingCons(rows[0], t, key);
    }
  }

  /** A key above every key of the table goes to the end. */
  lemma {:induction false} InsertAboveAppends<T>(rows: seq<T>, x: T, key: T -> int)
    requires AllBelow(rows, key, key(x))
    ensures InsertByKey(rows, x, key) == rows + [x]
    decreases |rows|
  {
    if rows != [] {
      assert key(rows[0]) < key(x);
      InsertAboveAppends(rows[1..], x, key);
      assert [rows[0]] + (rows[1..] + [x]) == rows + [x];
    }
  }

  /** Every row whose key is `key(x)` replaced by `x`: an `UPDATE ... WHERE id = ?`. */
  function ReplaceByKey<T>(rows: seq<T>, x: T, key: T -> int): (r: seq<T>)
    ensures |r| == |rows|
    ensures forall i :: 0 <= i < |rows| ==> key(r[i]) == key(rows[i])
    ensures HasKey(rows, key, key(x)) ==> x in r
    ensures forall i :: 0 <= i < |rows| && key(rows[i]) != key(x) ==> rows[i] in r
    ensures forall i :: 0 <= i < |r| ==> r[i] == x || (r[i] in rows && key(r[i]) != key(x))
  {
    seq(|rows|, i requires 0 <= i < |rows| => if key(rows[i]) == key(x) then x else rows[i])
  }

  /** Replacing rows by key keeps the key order. */
  lemma ReplaceByKeyAscending<T>(rows: seq<T>, x: T, key: T -> int)
    requires Ascending(rows, key)
    ensures Ascending(ReplaceByKey(rows, x, key), key)
  {
  }

  /** Replacing rows by key keeps every key present. */
  lemma ReplaceByKeyHasKey<T>(rows: seq<T>, x: T, key: T -> int, k: int)
    requires HasKey(rows, key, k)
    ensures HasKey(ReplaceByKey(rows, x, key), key, k)
  {
    var i :| 0 <= i < |rows| && key(rows[i]) == k;
    assert key(ReplaceByKey(rows, x, key)[i]) == k;
  }

  /** Keys that ascend strictly identify their rows. */
  lemma AscendingKeyUnique<T>(rows: seq<T>, key: T -> int, i: nat, j: nat)
    requires Ascending(rows, key) && i < |rows| && j < |rows|
    requires key(rows[i]) == key(rows[j])
    ensures i == j
  {
  }

  /** A filter that every row passes keeps the whole table. */
  lemma {:induction false} FilterKeepsAll<T>(rows: seq<T>, keep: T -> bool)
    requires forall i :: 0 <= i < |rows| ==> keep(rows[i])
    ensures Filter(rows, keep) == rows
    decreases |rows|
  {
    if rows != [] {
      assert keep(rows[0]);
      FilterKeepsAll(rows[1..], keep);
      assert [rows[0]] + rows[1..] == rows;
    }
  }

  /** Keys not decreasing: the order of `ORDER BY key ASC`. */
  predicate SortedBy<T>(rows: seq<T>, key: T -> int) {
    forall i, j :: 0 <= i < j < |rows| ==> key(rows[i]) <= key(rows[j])
  }

  /** `x` placed before the first row whose key is not smaller. */
  function InsertSorted<T>(x: T, rows: seq<T>, key: T -> int): (r: seq<T>)
    ensures |r| == |rows| + 1
    ensures forall k :: 0 <= k < |r| ==> r[k] == x || r[k] in rows
    ensures multiset(r) == multiset(rows) + multiset{x}
    decreases |rows|
  {
    if rows == [] || key(x) <= key(rows[0]) then [x] + rows
    else
      assert rows == [rows[0]] + rows[1..];
      [rows[0]] + InsertSorted(x, rows[1..], key)
  }

  lemma {:induction false} InsertSortedOrdered<T>(x: T, rows: seq<T>, key: T -> int)
    requires SortedBy(rows, key)
    ensures SortedBy(InsertSorted(x, rows, key), key)
    decreases |rows|
  {
    if rows != [] && key(x) > key(rows[0]) {
      var tail := rows[1..];
      assert SortedBy(tail, key) by {
        forall i, j | 0 <= i < j < |tail| ensures key(tail[i]) <= key(tail[j]) {
          assert tail[i] == rows[i + 1] && tail[j] == rows[j + 1];
        }
      }
      InsertSortedOrdered(x, tail, key);
      var rest := InsertSorted(x, tail, key);
      var r := InsertSorted(x, rows, key);
      assert r == [rows[0]] + rest;
      forall i, j | 0 <= i < j < |r| ensures key(r[i]) <= key(r[j]) {
        if i == 0 {
          assert r[j] == rest[j - 1];
          if rest[j - 1] != x {
            var m :| 0 <= m < |tail| && tail[m] == rest[j - 1];
            assert tail[m] == rows[m + 1];
          }
        } else {
          assert r[i] == rest[i - 1] && r[j] == rest[j - 1];
        }
      }
    }
  }

  /** `ORDER BY key ASC`: a permutation of the rows with keys not decreasing.
      Rows with equal keys keep their table order (SQLite leaves that order
      unspecified). */
  function SortBy<T>(rows: seq<T>, key: T -> int): (r: seq<T>)
    ensures multiset(r) == multiset(rows)
    ensures SortedBy(r, key)
    decreases |rows|
  {
    if rows == [] then []
    else
      assert rows == [rows[0]] + rows[1..];
      InsertSortedOrdered(rows[0], SortBy(rows[1..], key), key);
      InsertSorted(rows[0], SortBy(rows[1..], key), key)
  }
}
