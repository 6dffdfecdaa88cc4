/// Accumulating rows into a dictionary of totals, and summing such a dictionary.
module Buckets {

  /** Taking one element off a worklist adds it to what is done. */
  lemma OneMore<T>(all: set<T>, todo: set<T>, x: T)
    requires x in todo && todo <= all
    ensures x in all && x !in all - todo && all - (todo - {x}) == all - todo + {x}
  {}

  function ValueAt<K>(m: map<K, int>, k: K): int { if k in m then m[k] else 0 }

  function Add<K(==)>(m: map<K, int>, k: K, v: int): map<K, int> { m[k := ValueAt(m, k) + v] }

  /** What `totals[key] += amount` over the rows leaves behind. */
  function Bucketed<K(==)>(rows: seq<(K, int)>): map<K, int> {
    if rows == [] then map[]
    else Add(Bucketed(rows[..|rows| - 1]), rows[|rows| - 1].0, rows[|rows| - 1].1)
  }

  function RowTotal<K(==)>(rows: seq<(K, int)>, k: K): int {
    if rows == [] then 0
    else RowTotal(rows[..|rows| - 1], k) + (if rows[|rows| - 1].0 == k then rows[|rows| - 1].1 else 0)
  }

  function RowSum<K(==)>(rows: seq<(K, int)>, p: K -> bool): int {
    if rows == [] then 0
    else RowSum(rows[..|rows| - 1], p) + (if p(rows[|rows| - 1].0) then rows[|rows| - 1].1 else 0)
  }

  /** The sum of `f` over a dictionary. */
  ghost function MapSum<K(!new), V>(m: map<K, V>, f: (K, V) -> int): int {
    if m == map[] then 0
    else
      var k :| k in m;
      f(k, m[k]) + MapSum(m - {k}, f)
  }

  /** A dictionary's value where the key satisfies `p`. */
  function Where<K>(p: K -> bool): (K, int) -> int { (k: K, v: int) => if p(k) then v else 0 }

  /** There is one bucket per key that occurs, and it holds the sum of that key's rows. */
  lemma {:induction false} BucketsAreSums<K>(rows: seq<(K, int)>)
    ensures Bucketed(rows).Keys == set row | row in rows :: row.0
    ensures forall k :: ValueAt(Bucketed(rows), k) == RowTotal(rows, k)
  {
    if rows != [] {
      var init := rows[..|rows| - 1];
      BucketsAreSums(init);
      assert rows == init + [rows[|rows| - 1]];
    }
  }

  lemma {:induction false} MapSumRemove<K(!new), V>(m: map<K, V>, k: K, f: (K, V) -> int)
    requires k in m
    ensures MapSum(m, f) == f(k, m[k]) + MapSum(m - {k}, f)
    decreases |m|
  {
    var l :| l in m && MapSum(m, f) == f(l, m[l]) + MapSum(m - {l}, f);
    if l != k {
      MapSumRemove(m - {l}, k, f);
      MapSumRemove(m - {k}, l, f);
      assert m - {l} - {k} == m - {k} - {l};
    }
  }

  lemma MapSumUpdate<K(!new), V>(m: map<K, V>, k: K, v: V, f: (K, V) -> int)
    ensures MapSum(m[k := v], f) == MapSum(m, f) - (if k in m then f(k, m[k]) else 0) + f(k, v)
  {
    MapSumRemove(m[k := v], k, f);
    assert m[k := v] - {k} == m - {k};
    if k in m {
      MapSumRemove(m, k, f);
    } else {
      assert m - {k} == m;
    }
  }

  /** Accumulation conserves: the buckets sum to the rows. */
  lemma {:induction false} BucketsConserve<K(!new)>(rows: seq<(K, int)>, p: K -> bool)
    ensures MapSum(Bucketed(rows), Where(p)) == RowSum(rows, p)
  {
    if rows != [] {
      var n := |rows| - 1;
      BucketsConserve(rows[..n], p);
      MapSumUpdate(Bucketed(rows[..n]), rows[n].0, Bucketed(rows)[rows[n].0], Where(p));
    }
  }

  lemma {:induction false} RowSumAppend<K>(a: seq<(K, int)>, b: seq<(K, int)>, p: K -> bool)
    ensures RowSum(a + b, p) == RowSum(a, p) + RowSum(b, p)
  {
    if b == [] {
      assert a + b == a;
    } else {
      RowSumAppend(a, b[..|b| - 1], p);
      assert (a + b)[..|a + b| - 1] == a + b[..|b| - 1];
    }
  }
}
