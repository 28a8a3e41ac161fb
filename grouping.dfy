/**
 * Grouping rows by a key, as the admin panel does with a JavaScript `Map`
 * filled in a `forEach` loop: the keys in the order they are first met, and
 * per-key sums, counts, first rows and latest timestamps. Also the
 * sort with a descending numeric comparator (`(a, b) => key(b) - key(a)`).
 *
 * The specification functions peel the LAST row off, so that a loop that
 * visits the rows from left to right extends them one row at a time.
 */
module Grouping {

  predicate NoDuplicates<K(==,!new)>(s: seq<K>)
  {
    forall i, j :: 0 <= i < j < |s| ==> s[i] != s[j]
  }

  /** `[...new Set(ks)]`: each value once, in the order of its first occurrence. */
  function Distinct<K(==,!new)>(ks: seq<K>): (r: seq<K>)
    ensures forall k :: k in r <==> k in ks
    ensures NoDuplicates(r)
    ensures |r| <= |ks|
  {
    if ks == [] then []
    else
      var prev := Distinct(ks[..|ks| - 1]);
      var k := ks[|ks| - 1];
      assert forall j :: j in ks <==> j in ks[..|ks| - 1] || j == k by {
        assert ks == ks[..|ks| - 1] + [k];
      }
      if k in prev then prev else prev + [k]
  }

  /**
   * The keys of a `Map` filled from `rows`, in insertion order: each row's
   * key is appended unless the `Map` already has it.
   */
  function GroupKeys<T, K(==,!new)>(rows: seq<T>, key: T -> K): (ks: seq<K>)
    ensures NoDuplicates(ks) && |ks| <= |rows|
  {
    if rows == [] then []
    else
      var prev := GroupKeys(rows[..|rows| - 1], key);
      var k := key(rows[|rows| - 1]);
      if k in prev then prev else prev + [k]
  }

  /** A key is in the `Map` exactly when some row has it. */
  lemma {:induction false} GroupKeysMembers<T, K(!new)>(rows: seq<T>, key: T -> K, k: K)
    ensures k in GroupKeys(rows, key) <==> exists i :: 0 <= i < |rows| && key(rows[i]) == k
  {
    if rows != [] {
      var init := rows[..|rows| - 1];
      GroupKeysMembers(init, key, k);
      if k in GroupKeys(init, key) {
        var i :| 0 <= i < |init| && key(init[i]) == k;
        assert key(rows[i]) == k;
      } else if exists i :: 0 <= i < |rows| && key(rows[i]) == k {
        var i :| 0 <= i < |rows| && key(rows[i]) == k;
        if i < |init| {
          assert key(init[i]) == k;
        }
      }
    }
  }

  /** `rows.filter(keep)`. */
  function FilterRows<T>(rows: seq<T>, keep: T -> bool): (r: seq<T>)
    ensures |r| <= |rows|
    ensures forall i :: 0 <= i < |r| ==> keep(r[i])
  {
    if rows == [] then []
    else
      var init := FilterRows(rows[..|rows| - 1], keep);
      if keep(rows[|rows| - 1]) then init + [rows[|rows| - 1]] else init
  }

  /** A count contributes 1 per row. */
  function One<T>(x: T): int { 1 }

  /** `rows.reduce((sum, x) => sum + f(x), 0)`. */
  function SumOf<T>(rows: seq<T>, f: T -> int): int
  {
    if rows == [] then 0 else SumOf(rows[..|rows| - 1], f) + f(rows[|rows| - 1])
  }

  /** The sum of `f` over the rows whose key is `k`. */
  function SumWhere<T, K(==,!new)>(rows: seq<T>, key: T -> K, k: K, f: T -> int): int
  {
    if rows == [] then 0
    else
      var x := rows[|rows| - 1];
      SumWhere(rows[..|rows| - 1], key, k, f) + (if key(x) == k then f(x) else 0)
  }

  /** The sum over the keys `ks` of the per-key sums. */
  function SumOverKeys<T, K(==,!new)>(ks: seq<K>, rows: seq<T>, key: T -> K, f: T -> int): int
  {
    if ks == [] then 0 else SumOverKeys(ks[..|ks| - 1], rows, key, f) + SumWhere(rows, key, ks[|ks| - 1], f)
  }

  /**
   * The first row whose key is `k`: the row whose fields a `Map` entry is
   * created from when `k` is first met.
   */
  function FirstWhere<T, K(==,!new)>(rows: seq<T>, key: T -> K, k: K): (x: T)
    requires k in GroupKeys(rows, key)
    ensures key(x) == k && x in rows
  {
    var init := rows[..|rows| - 1];
    var last := rows[|rows| - 1];
    if k in GroupKeys(init, key) then FirstWhere(init, key, k) else last
  }

  /** The row `FirstWhere` picks sits at an index before which no row has key `k`. */
  lemma {:induction false} FirstWhereIsFirst<T, K(!new)>(rows: seq<T>, key: T -> K, k: K)
    requires k in GroupKeys(rows, key)
    ensures exists i :: 0 <= i < |rows| && rows[i] == FirstWhere(rows, key, k)
                        && forall j :: 0 <= j < i ==> key(rows[j]) != k
  {
    var init := rows[..|rows| - 1];
    if k in GroupKeys(init, key) {
      FirstWhereIsFirst(init, key, k);
      var i :| 0 <= i < |init| && init[i] == FirstWhere(init, key, k)
               && forall j :: 0 <= j < i ==> key(init[j]) != k;
      assert rows[i] == init[i];
      forall j | 0 <= j < i ensures key(rows[j]) != k {
        assert rows[j] == init[j];
      }
    } else {
      GroupKeysMembers(init, key, k);
      var i := |rows| - 1;
      forall j | 0 <= j < i ensures key(rows[j]) != k {
        assert rows[j] == init[j];
      }
    }
  }

  /** The greatest `at` among the rows whose key is `k`. */
  function LatestWhere<T, K(==,!new)>(rows: seq<T>, key: T -> K, k: K, at: T -> int): int
    requires k in GroupKeys(rows, key)
  {
    var init := rows[..|rows| - 1];
    var last := rows[|rows| - 1];
    if key(last) != k then LatestWhere(init, key, k, at)
    else if k in GroupKeys(init, key) then
      var m := LatestWhere(init, key, k, at);
      if at(last) > m then at(last) else m
    else at(last)
  }

  // ---------------------------------------------------------------------
  // Sums over groups
  // ---------------------------------------------------------------------

  /** Adding a row adds its value to the total of the one listed key it belongs to. */
  lemma {:induction false} SumOverKeysAddRow<T, K(!new)>(ks: seq<K>, rows: seq<T>, x: T, key: T -> K, f: T -> int)
    requires NoDuplicates(ks)
    ensures SumOverKeys(ks, rows + [x], key, f)
            == SumOverKeys(ks, rows, key, f) + (if key(x) in ks then f(x) else 0)
  {
    if ks != [] {
      var init := ks[..|ks| - 1];
      assert (rows + [x])[..|rows + [x]| - 1] == rows;
      assert NoDuplicates(init);
      SumOverKeysAddRow(init, rows, x, key, f);
      assert key(x) in ks <==> key(x) in init || key(x) == ks[|ks| - 1] by {
        assert ks == init + [ks[|ks| - 1]];
      }
    }
  }

  /** The rows of a group-by are partitioned among the keys: the per-key sums add up to the whole. */
  lemma {:induction false} PartitionSum<T, K(!new)>(ks: seq<K>, rows: seq<T>, key: T -> K, f: T -> int)
    requires NoDuplicates(ks)
    requires forall i :: 0 <= i < |rows| ==> key(rows[i]) in ks
    ensures SumOverKeys(ks, rows, key, f) == SumOf(rows, f)
  {
    if rows == [] {
      SumOverKeysEmpty(ks, key, f);
    } else {
      var init := rows[..|rows| - 1];
      var x := rows[|rows| - 1];
      PartitionSum(ks, init, key, f);
      assert rows == init + [x];
      SumOverKeysAddRow(ks, init, x, key, f);
    }
  }

  /** With no rows every key sums to zero. */
  lemma {:induction false} SumOverKeysEmpty<T, K(!new)>(ks: seq<K>, key: T -> K, f: T -> int)
    ensures SumOverKeys(ks, [], key, f) == 0
  {
    if ks != [] {
      SumOverKeysEmpty(ks[..|ks| - 1], key, f);
    }
  }

  /** The groups of a `Map` account for every row. */
  lemma GroupPartition<T, K(!new)>(rows: seq<T>, key: T -> K, f: T -> int)
    ensures SumOverKeys(GroupKeys(rows, key), rows, key, f) == SumOf(rows, f)
  {
    forall i | 0 <= i < |rows| ensures key(rows[i]) in GroupKeys(rows, key) {
      GroupKeysMembers(rows, key, key(rows[i]));
    }
    PartitionSum(GroupKeys(rows, key), rows, key, f);
  }

  /** Counting is summing ones. */
  lemma {:induction false} SumOfOnes<T>(rows: seq<T>)
    ensures SumOf(rows, One) == |rows|
  {
    if rows != [] {
      SumOfOnes(rows[..|rows| - 1]);
    }
  }

  /** The latest timestamp of a group is one of its rows' and no row of it is later. */
  lemma {:induction false} LatestWhereIsMax<T, K(!new)>(rows: seq<T>, key: T -> K, k: K, at: T -> int)
    requires k in GroupKeys(rows, key)
    ensures forall i :: 0 <= i < |rows| && key(rows[i]) == k ==> at(rows[i]) <= LatestWhere(rows, key, k, at)
    ensures exists i :: 0 <= i < |rows| && key(rows[i]) == k && at(rows[i]) == LatestWhere(rows, key, k, at)
  {
    var init := rows[..|rows| - 1];
    var last := rows[|rows| - 1];
    if k in GroupKeys(init, key) {
      LatestWhereIsMax(init, key, k, at);
    } else {
      GroupKeysMembers(init, key, k);
    }
    var m := LatestWhere(rows, key, k, at);
    forall i | 0 <= i < |rows| && key(rows[i]) == k
      ensures at(rows[i]) <= m
    {
      if i < |rows| - 1 {
        assert rows[i] == init[i];
      }
    }
    if key(last) == k && at(last) == m {
      assert at(rows[|rows| - 1]) == m;
    } else {
      var j :| 0 <= j < |init| && key(init[j]) == k && at(init[j]) == LatestWhere(init, key, k, at);
      assert rows[j] == init[j];
    }
  }

  // ---------------------------------------------------------------------
  // One more row: how a `Map` filled in a loop changes
  // ---------------------------------------------------------------------

  /** A prefix one element longer is the shorter prefix and that element. */
  lemma PrefixStep<T>(s: seq<T>, i: int)
    requires 0 <= i < |s|
    ensures s[..i + 1] == s[..i] + [s[i]]
  {
  }

  /** A new key is appended to the insertion order; a known one changes nothing. */
  lemma GroupKeysAddRow<T, K(!new)>(rows: seq<T>, x: T, key: T -> K)
    ensures GroupKeys(rows + [x], key)
            == if key(x) in GroupKeys(rows, key) then GroupKeys(rows, key) else GroupKeys(rows, key) + [key(x)]
  {
    assert (rows + [x])[..|rows|] == rows;
  }

  /** The row is added to its own key's sum and to no other. */
  lemma SumWhereAddRow<T, K(!new)>(rows: seq<T>, x: T, key: T -> K, k: K, f: T -> int)
    ensures SumWhere(rows + [x], key, k, f) == SumWhere(rows, key, k, f) + (if key(x) == k then f(x) else 0)
  {
    assert (rows + [x])[..|rows|] == rows;
  }

  /** A key that is not in the `Map` has had nothing summed into it. */
  lemma {:induction false} SumWhereNewKey<T, K(!new)>(rows: seq<T>, key: T -> K, k: K, f: T -> int)
    requires k !in GroupKeys(rows, key)
    ensures SumWhere(rows, key, k, f) == 0
  {
    if rows != [] {
      SumWhereNewKey(rows[..|rows| - 1], key, k, f);
    }
  }

  /** The first row of a key stays the first once later rows arrive; a new key's first row is the new row. */
  lemma FirstWhereAddRow<T, K(!new)>(rows: seq<T>, x: T, key: T -> K, k: K)
    requires k in GroupKeys(rows + [x], key)
    ensures FirstWhere(rows + [x], key, k) == if k in GroupKeys(rows, key) then FirstWhere(rows, key, k) else x
  {
    assert (rows + [x])[..|rows|] == rows;
  }

  /** The latest timestamp of a key after one more row. */
  lemma LatestWhereAddRow<T, K(!new)>(rows: seq<T>, x: T, key: T -> K, k: K, at: T -> int)
    requires k in GroupKeys(rows + [x], key)
    ensures LatestWhere(rows + [x], key, k, at) ==
      if k !in GroupKeys(rows, key) then at(x)
      else if key(x) == k && at(x) > LatestWhere(rows, key, k, at) then at(x)
      else LatestWhere(rows, key, k, at)
  {
    assert (rows + [x])[..|rows|] == rows;
  }

  /** A row the filter keeps is appended; one it skips changes nothing. */
  lemma FilterRowsAddRow<T>(rows: seq<T>, x: T, keep: T -> bool)
    ensures FilterRows(rows + [x], keep) == FilterRows(rows, keep) + (if keep(x) then [x] else [])
  {
    assert (rows + [x])[..|rows|] == rows;
  }

  /** The filter keeps exactly the rows that satisfy `keep`. */
  lemma {:induction false} FilterRowsMembers<T>(rows: seq<T>, keep: T -> bool, x: T)
    ensures x in FilterRows(rows, keep) <==> x in rows && keep(x)
  {
    if rows != [] {
      var init := rows[..|rows| - 1];
      FilterRowsMembers(init, keep, x);
      assert rows == init + [rows[|rows| - 1]];
    }
  }

  /** Filtering keeps the order of the rows it keeps, so a sorted list stays sorted. */
  lemma {:induction false} FilterRowsSorted<T>(rows: seq<T>, keep: T -> bool, at: T -> int)
    requires SortedDesc(rows, at)
    ensures SortedDesc(FilterRows(rows, keep), at)
  {
    if rows != [] {
      var init := rows[..|rows| - 1];
      var last := rows[|rows| - 1];
      assert SortedDesc(init, at) by {
        forall i, j | 0 <= i < j < |init| ensures at(init[i]) >= at(init[j]) {
          assert init[i] == rows[i] && init[j] == rows[j];
        }
      }
      FilterRowsSorted(init, keep, at);
      var f := FilterRows(init, keep);
      if keep(last) {
        forall i | 0 <= i < |f| ensures at(f[i]) >= at(last) {
          FilterRowsMembers(init, keep, f[i]);
          var j :| 0 <= j < |init| && init[j] == f[i];
          assert rows[j] == init[j];
        }
        var r := f + [last];
        forall i, j | 0 <= i < j < |r| ensures at(r[i]) >= at(r[j]) {
          if j == |f| {
            assert r[i] == f[i];
          } else {
            assert r[i] == f[i] && r[j] == f[j];
          }
        }
      }
    }
  }

  /**
   * On rows listed latest first, the latest timestamp of a key is the one of
   * the first row with that key.
   */
  lemma {:induction false} LatestIsFirstWhenSorted<T, K(!new)>(rows: seq<T>, key: T -> K, k: K, at: T -> int)
    requires k in GroupKeys(rows, key)
    requires SortedDesc(rows, at)
    ensures LatestWhere(rows, key, k, at) == at(FirstWhere(rows, key, k))
  {
    var init := rows[..|rows| - 1];
    var last := rows[|rows| - 1];
    if k in GroupKeys(init, key) {
      assert SortedDesc(init, at) by {
        forall i, j | 0 <= i < j < |init| ensures at(init[i]) >= at(init[j]) {
          assert init[i] == rows[i] && init[j] == rows[j];
        }
      }
      LatestIsFirstWhenSorted(init, key, k, at);
      var first := FirstWhere(init, key, k);
      var j :| 0 <= j < |init| && init[j] == first;
      assert rows[j] == first;
      assert at(first) >= at(rows[|rows| - 1]);
    }
  }

  /**
   * Summing one field over the values of a `Map`, listed in key order, is
   * summing the per-key sums.
   */
  lemma {:induction false} SumOfPerKey<T, K(!new), V>(vs: seq<V>, g: V -> int, ks: seq<K>, rows: seq<T>, key: T -> K, f: T -> int)
    requires |vs| == |ks|
    requires forall j :: 0 <= j < |ks| ==> g(vs[j]) == SumWhere(rows, key, ks[j], f)
    ensures SumOf(vs, g) == SumOverKeys(ks, rows, key, f)
  {
    if ks != [] {
      SumOfPerKey(vs[..|vs| - 1], g, ks[..|ks| - 1], rows, key, f);
    }
  }

  // ---------------------------------------------------------------------
  // Sorting
  // ---------------------------------------------------------------------

  predicate SortedDesc<T>(s: seq<T>, key: T -> int)
  {
    forall i, j :: 0 <= i < j < |s| ==> key(s[i]) >= key(s[j])
  }

  /** Places `x` before the first element whose key is not greater than its own. */
  function InsertDesc<T(==)>(x: T, s: seq<T>, key: T -> int): (r: seq<T>)
    ensures multiset(r) == multiset(s) + multiset{x}
  {
    if s == [] || key(s[0]) <= key(x) then [x] + s
    else
      assert s == [s[0]] + s[1..];
      [s[0]] + InsertDesc(x, s[1..], key)
  }

  /** Inserting into a sorted list keeps it sorted. */
  lemma {:induction false} InsertDescSorted<T>(x: T, s: seq<T>, key: T -> int)
    requires SortedDesc(s, key)
    ensures SortedDesc(InsertDesc(x, s, key), key)
  {
    if s == [] || key(s[0]) <= key(x) {
    } else {
      var rest := InsertDesc(x, s[1..], key);
      InsertDescSorted(x, s[1..], key);
      assert s == [s[0]] + s[1..];
      forall i | 0 <= i < |rest| ensures key(rest[i]) <= key(s[0]) {
        assert rest[i] in multiset(rest);
        assert rest[i] == x || rest[i] in s[1..];
      }
    }
  }

  /**
   * `s.sort((a, b) => key(b) - key(a))`, as an insertion sort: non-increasing
   * by key and a permutation of `s`.
   */
  function SortDesc<T(==)>(s: seq<T>, key: T -> int): (r: seq<T>)
    ensures SortedDesc(r, key)
    ensures multiset(r) == multiset(s)
    ensures |r| == |s|
  {
    if s == [] then []
    else
      assert s == [s[0]] + s[1..];
      InsertDescSorted(s[0], SortDesc(s[1..], key), key);
      InsertDesc(s[0], SortDesc(s[1..], key), key)
  }

  /** A permutation of a list without duplicates has none either. */
  lemma NoDuplicatesPermutation<T(!new)>(a: seq<T>, b: seq<T>)
    requires NoDuplicates(a) && multiset(a) == multiset(b)
    ensures NoDuplicates(b)
  {
    forall i, j | 0 <= i < j < |b| ensures b[i] != b[j] {
      CountAtMostOne(a, b[i]);
      assert b == b[..j] + [b[j]] + b[j + 1..];
      assert multiset(b)[b[j]] == multiset(b[..j])[b[j]] + 1 + multiset(b[j + 1..])[b[j]];
      assert b[i] in multiset(b[..j]) by {
        assert b[..j][i] == b[i];
      }
    }
  }

  /** In a list without duplicates each value occurs at most once. */
  lemma {:induction false} CountAtMostOne<T(!new)>(a: seq<T>, x: T)
    requires NoDuplicates(a)
    ensures multiset(a)[x] <= 1
  {
    if a != [] {
      assert a == [a[0]] + a[1..];
      assert NoDuplicates(a[1..]);
      CountAtMostOne(a[1..], x);
      if a[0] == x {
        assert x !in a[1..];
      }
    }
  }

  /** Reordering a list does not change its sum. */
  lemma {:induction false} SumOfPermutation<T>(a: seq<T>, b: seq<T>, f: T -> int)
    requires multiset(a) == multiset(b)
    ensures SumOf(a, f) == SumOf(b, f)
  {
    if a != [] {
      var x := a[|a| - 1];
      assert a == a[..|a| - 1] + [x];
      assert x in multiset(b);
      var j :| 0 <= j < |b| && b[j] == x;
      var rest := b[..j] + b[j + 1..];
      assert b == b[..j] + [x] + b[j + 1..];
      assert multiset(a) == multiset(a[..|a| - 1]) + multiset{x};
      assert multiset(b) == multiset(b[..j]) + multiset{x} + multiset(b[j + 1..]);
      assert multiset(rest) == multiset(b[..j]) + multiset(b[j + 1..]);
      assert multiset(a[..|a| - 1]) == multiset(a) - multiset{x};
      assert multiset(rest) == multiset(b) - multiset{x};
      SumOfPermutation(a[..|a| - 1], rest, f);
      SumOfRemove(b, j, f);
    }
  }

  /** Removing the element at `j` takes its value off the sum. */
  lemma {:induction false} SumOfRemove<T>(b: seq<T>, j: int, f: T -> int)
    requires 0 <= j < |b|
    ensures SumOf(b, f) == SumOf(b[..j] + b[j + 1..], f) + f(b[j])
  {
    var rest := b[..j] + b[j + 1..];
    if j < |b| - 1 {
      var init := b[..|b| - 1];
      assert init[..j] + init[j + 1..] == rest[..|rest| - 1];
      assert rest[|rest| - 1] == b[|b| - 1];
      SumOfRemove(init, j, f);
    } else {
      assert rest == b[..|b| - 1];
    }
  }
  /** `s.slice(0, n)`. */
  function Take<T>(s: seq<T>, n: nat): (r: seq<T>)
    ensures |r| == if n < |s| then n else |s|
    ensures forall i :: 0 <= i < |r| ==> r[i] == s[i]
  {
    if n < |s| then s[..n] else s
  }

  /** In a sorted list, an element outside the first `n` ranks no higher than any inside them. */
  lemma TakeDominates<T>(s: seq<T>, key: T -> int, n: nat, p: T, q: T)
    requires SortedDesc(s, key)
    requires p in s && p !in Take(s, n) && q in Take(s, n)
    ensures key(p) <= key(q)
  {
    var top := Take(s, n);
    var j :| 0 <= j < |s| && s[j] == p;
    var i :| 0 <= i < |top| && top[i] == q;
    assert j >= |top|;
  }
}
