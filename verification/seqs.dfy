/**
 * Sequence utilities shared by the list endpoints: ordering predicates and a
 * stable insertion sort standing in for SQL's ORDER BY.
 */
module Seqs {

  import opened Wrappers

  /** `le` is a total preorder: any two elements compare, and comparison chains. */
  ghost predicate TotalPreorder<T(!new)>(le: (T, T) -> bool) {
    && (forall a, b :: le(a, b) || le(b, a))
    && (forall a, b, c :: le(a, b) && le(b, c) ==> le(a, c))
  }

  /** Every earlier element is `le` every later one. */
  ghost predicate Sorted<T>(s: seq<T>, le: (T, T) -> bool) {
    forall i, j :: 0 <= i < j < |s| ==> le(s[i], s[j])
  }

  /** Strictly ascending integers (row ids in table order). */
  ghost predicate Increasing(s: seq<int>) {
    forall i, j :: 0 <= i < j < |s| ==> s[i] < s[j]
  }

  /** Places `x` before the first element it is `le` to. */
  function Insert<T(!new)>(x: T, s: seq<T>, le: (T, T) -> bool): (r: seq<T>)
    requires TotalPreorder(le)
    requires Sorted(s, le)
    ensures Sorted(r, le)
    ensures multiset(r) == multiset(s) + multiset{x}
  {
    if s == [] then [x]
    else if le(x, s[0]) then [x] + s
    else
      var rest := Insert(x, s[1..], le);
      assert s == [s[0]] + s[1..];
      assert forall k :: 0 <= k < |rest| ==> le(s[0], rest[k]) by {
        forall k | 0 <= k < |rest|
          ensures le(s[0], rest[k])
        {
          assert rest[k] in multiset(rest);
          if rest[k] != x {
            assert rest[k] in multiset(s[1..]);
            var j :| 0 <= j < |s[1..]| && s[1..][j] == rest[k];
            assert s[j + 1] == rest[k];
          }
        }
      }
      [s[0]] + rest
  }

  /** Insertion sort: a sorted permutation of `s`; equal elements keep their order. */
  function SortBy<T(!new)>(s: seq<T>, le: (T, T) -> bool): (r: seq<T>)
    requires TotalPreorder(le)
    ensures Sorted(r, le)
    ensures multiset(r) == multiset(s)
    ensures |r| == |s|
  {
    if s == [] then []
    else
      assert s == [s[0]] + s[1..];
      Insert(s[0], SortBy(s[1..], le), le)
  }

  /** The ids in `[1, n)` that are keys of `m` and whose row satisfies `p`, ascending. */
  function KeysWhere<T>(m: map<int, T>, n: int, p: T -> bool): (r: seq<int>)
    ensures forall k :: k in r <==> 1 <= k < n && k in m && p(m[k])
    ensures Increasing(r)
    ensures forall i :: 0 <= i < |r| ==> r[i] < n
    decreases n
  {
    if n <= 1 then []
    else
      var prefix := KeysWhere(m, n - 1, p);
      if n - 1 in m && p(m[n - 1]) then prefix + [n - 1] else prefix
  }

  /** The first id in `[1, n)` that is a key of `m` whose row satisfies `p` (a SELECT ... LIMIT 1). */
  function FirstKeyWhere<T>(m: map<int, T>, n: int, p: T -> bool): (r: Option<int>)
    ensures r.Some? ==> 1 <= r.value < n && r.value in m && p(m[r.value])
    ensures r.Some? ==> forall k :: 1 <= k < r.value && k in m ==> !p(m[k])
    ensures r.None? ==> forall k :: 1 <= k < n && k in m ==> !p(m[k])
    decreases n
  {
    if n <= 1 then None
    else
      var earlier := FirstKeyWhere(m, n - 1, p);
      if earlier.Some? then earlier
      else if n - 1 in m && p(m[n - 1]) then Some(n - 1)
      else None
  }

  /** No value occurs twice. */
  ghost predicate Distinct<T>(s: seq<T>) {
    forall i, j :: 0 <= i < j < |s| ==> s[i] != s[j]
  }

  lemma {:induction false} DistinctMultiplicity<T>(s: seq<T>, x: T)
    requires Distinct(s)
    ensures multiset(s)[x] <= 1
  {
    if s != [] {
      assert s == [s[0]] + s[1..];
      DistinctMultiplicity(s[1..], x);
      if s[0] == x {
        assert x !in s[1..];
      }
    }
  }

  /** A permutation of a sequence without repeats has no repeats. */
  lemma PermutationKeepsDistinct<T>(s: seq<T>, r: seq<T>)
    requires Distinct(s)
    requires multiset(r) == multiset(s)
    ensures Distinct(r)
  {
    forall i, j | 0 <= i < j < |r|
      ensures r[i] != r[j]
    {
      if r[i] == r[j] {
        var x := r[i];
        assert r == r[..j] + r[j..];
        assert x in r[..j];
        assert x in r[j..];
        assert multiset(r)[x] == multiset(r[..j])[x] + multiset(r[j..])[x];
        DistinctMultiplicity(s, x);
        assert false;
      }
    }
  }

  /** The rows built from the ids `KeysWhere` picks, in id order. */
  function RowsOf<T, R>(m: map<int, T>, n: int, p: T -> bool, row: (int, T) -> R): (rows: seq<R>)
    ensures var ids := KeysWhere(m, n, p);
      |rows| == |ids| && forall i :: 0 <= i < |rows| ==> ids[i] in m && rows[i] == row(ids[i], m[ids[i]])
  {
    var ids := KeysWhere(m, n, p);
    seq(|ids|, i requires 0 <= i < |ids| => assert ids[i] in ids; row(ids[i], m[ids[i]]))
  }

  /** Every element of a permutation of `RowsOf` is the row of a selected id. */
  lemma SelectSound<T(!new), R>(m: map<int, T>, n: int, p: T -> bool, row: (int, T) -> R, id: R -> int, r: seq<R>)
    requires forall k, t :: id(row(k, t)) == k
    requires multiset(r) == multiset(RowsOf(m, n, p, row))
    ensures forall i :: 0 <= i < |r| ==>
      1 <= id(r[i]) < n && id(r[i]) in m && p(m[id(r[i])]) && r[i] == row(id(r[i]), m[id(r[i])])
  {
    var ids := KeysWhere(m, n, p);
    var rows := RowsOf(m, n, p, row);
    forall i | 0 <= i < |r|
      ensures 1 <= id(r[i]) < n && id(r[i]) in m && p(m[id(r[i])]) && r[i] == row(id(r[i]), m[id(r[i])])
    {
      assert r[i] in multiset(rows);
      var j :| 0 <= j < |rows| && rows[j] == r[i];
      assert ids[j] in ids;
    }
  }

  /** Every selected id has its row in a permutation of `RowsOf`. */
  lemma SelectComplete<T, R>(m: map<int, T>, n: int, p: T -> bool, row: (int, T) -> R, id: R -> int, r: seq<R>)
    requires forall k, t :: id(row(k, t)) == k
    requires multiset(r) == multiset(RowsOf(m, n, p, row))
    ensures forall k :: 1 <= k < n && k in m && p(m[k]) ==> exists i :: 0 <= i < |r| && id(r[i]) == k
  {
    var ids := KeysWhere(m, n, p);
    var rows := RowsOf(m, n, p, row);
    forall k | 1 <= k < n && k in m && p(m[k])
      ensures exists i :: 0 <= i < |r| && id(r[i]) == k
    {
      assert k in ids;
      var j :| 0 <= j < |ids| && ids[j] == k;
      assert rows[j] in multiset(r);
      var i :| 0 <= i < |r| && r[i] == rows[j];
      assert id(r[i]) == k;
    }
  }

  /** No id is listed twice in a permutation of `RowsOf`. */
  lemma SelectDistinct<T, R>(m: map<int, T>, n: int, p: T -> bool, row: (int, T) -> R, id: R -> int, r: seq<R>)
    requires forall k, t :: id(row(k, t)) == k
    requires multiset(r) == multiset(RowsOf(m, n, p, row))
    ensures forall i, j :: 0 <= i < j < |r| ==> id(r[i]) != id(r[j])
  {
    var ids := KeysWhere(m, n, p);
    var rows := RowsOf(m, n, p, row);
    assert Distinct(rows) by {
      forall i, j | 0 <= i < j < |rows| ensures rows[i] != rows[j] {
        assert id(rows[i]) == ids[i] && id(rows[j]) == ids[j];
      }
    }
    PermutationKeepsDistinct(rows, r);
    forall i, j | 0 <= i < j < |r|
      ensures id(r[i]) != id(r[j])
    {
      assert r[i] in multiset(rows) && r[j] in multiset(rows);
      var a :| 0 <= a < |rows| && rows[a] == r[i];
      var b :| 0 <= b < |rows| && rows[b] == r[j];
      if a < b {
        assert ids[a] < ids[b];
      } else if b < a {
        assert ids[b] < ids[a];
      }
    }
  }

  /**
   * SELECT ... WHERE p ORDER BY le over an AUTOINCREMENT table: the rows
   * built from every id in `[1, n)` whose record satisfies `p`, each once,
   * sorted by `le` (the order among ties is left open, as in SQL).
   */
  function Select<T(!new), R(!new)>(m: map<int, T>, n: int, p: T -> bool, row: (int, T) -> R, id: R -> int,
                                    le: (R, R) -> bool): (r: seq<R>)
    requires TotalPreorder(le)
    requires forall k, t :: id(row(k, t)) == k
    ensures Sorted(r, le)
    ensures forall i :: 0 <= i < |r| ==>
      1 <= id(r[i]) < n && id(r[i]) in m && p(m[id(r[i])]) && r[i] == row(id(r[i]), m[id(r[i])])
    ensures forall k :: 1 <= k < n && k in m && p(m[k]) ==> exists i :: 0 <= i < |r| && id(r[i]) == k
    ensures forall i, j :: 0 <= i < j < |r| ==> id(r[i]) != id(r[j])
  {
    var r := SortBy(RowsOf(m, n, p, row), le);
    SelectSound(m, n, p, row, id, r);
    SelectComplete(m, n, p, row, id, r);
    SelectDistinct(m, n, p, row, id, r);
    r
  }
}
