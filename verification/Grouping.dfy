/** GROUP BY and SUM over rows: the distinct keys of the rows, the total of a column over the rows of one key,
    and the total over several keys. Each row belongs to exactly one group, so the group totals add up to the total
    of all rows, whatever the order of the groups. The reports of AbcReports and ArAging are built on this. */
module Grouping {
  import opened Sequences

  ghost predicate HasKey<T, K>(rows: seq<T>, key: T -> K, k: K)
  {
    exists i :: 0 <= i < |rows| && key(rows[i]) == k
  }

  /** The groups that GROUP BY makes: every key of the rows once, in any order. */
  ghost predicate Groups<T, K>(rows: seq<T>, key: T -> K, keys: seq<K>)
  {
    Distinct(keys) && (forall i :: 0 <= i < |rows| ==> key(rows[i]) in keys) &&
    forall j :: 0 <= j < |keys| ==> HasKey(rows, key, keys[j])
  }

  lemma RowOfGroup<T, K>(rows: seq<T>, key: T -> K, keys: seq<K>, j: nat) returns (i: nat)
    requires Groups(rows, key, keys) && j < |keys|
    ensures i < |rows| && key(rows[i]) == keys[j]
  {
    assert HasKey(rows, key, keys[j]);
    i :| 0 <= i < |rows| && key(rows[i]) == keys[j];
  }

  lemma GroupOfRow<T, K>(rows: seq<T>, key: T -> K, keys: seq<K>, i: nat) returns (j: nat)
    requires Groups(rows, key, keys) && i < |rows|
    ensures j < |keys| && keys[j] == key(rows[i])
  {
    assert key(rows[i]) in keys;
    j :| 0 <= j < |keys| && keys[j] == key(rows[i]);
  }

  /** SUM of f over the rows. */
  function Total<T>(rows: seq<T>, f: T -> real): real
  {
    if rows == [] then 0.0 else Total(rows[..|rows| - 1], f) + f(rows[|rows| - 1])
  }

  /** SUM of f over the rows of one group. */
  function TotalAt<T, K(==)>(rows: seq<T>, key: T -> K, k: K, f: T -> real): real
  {
    if rows == [] then 0.0 else
    TotalAt(rows[..|rows| - 1], key, k, f) + (if key(rows[|rows| - 1]) == k then f(rows[|rows| - 1]) else 0.0)
  }

  lemma TotalNext<T, K>(rows: seq<T>, row: T, key: T -> K, k: K, f: T -> real)
    ensures TotalAt(rows + [row], key, k, f) == TotalAt(rows, key, k, f) + (if key(row) == k then f(row) else 0.0)
    ensures Total(rows + [row], f) == Total(rows, f) + f(row)
  {
    assert (rows + [row])[..|rows|] == rows;
  }

  /** The sum of the groups' sums. */
  function TotalOver<T, K(==)>(rows: seq<T>, key: T -> K, keys: seq<K>, f: T -> real): real
  {
    if keys == [] then 0.0 else
    TotalOver(rows, key, keys[..|keys| - 1], f) + TotalAt(rows, key, keys[|keys| - 1], f)
  }

  lemma {:induction false} TotalOverNone<T, K>(key: T -> K, keys: seq<K>, f: T -> real)
    ensures TotalOver([], key, keys, f) == 0.0
  {
    if keys != [] {
      TotalOverNone(key, keys[..|keys| - 1], f);
    }
  }

  /** One more row adds its value to the group of its key, if that is among the groups. */
  lemma {:induction false} TotalOverRow<T, K>(rows: seq<T>, row: T, key: T -> K, keys: seq<K>, f: T -> real)
    requires Distinct(keys)
    ensures TotalOver(rows + [row], key, keys, f) ==
            TotalOver(rows, key, keys, f) + (if key(row) in keys then f(row) else 0.0)
  {
    if keys != [] {
      var n := |keys| - 1;
      TotalOverRow(rows, row, key, keys[..n], f);
      assert keys == keys[..n] + [keys[n]];
      assert (rows + [row])[..|rows|] == rows;
    }
  }

  /** The sums over the groups add up to the sum over the rows. */
  lemma {:induction false} SumOverGroups<T, K>(rows: seq<T>, key: T -> K, keys: seq<K>, f: T -> real)
    requires Distinct(keys) && forall i :: 0 <= i < |rows| ==> key(rows[i]) in keys
    ensures TotalOver(rows, key, keys, f) == Total(rows, f)
  {
    if rows == [] {
      TotalOverNone(key, keys, f);
    } else {
      var n := |rows| - 1;
      SumOverGroups(rows[..n], key, keys, f);
      TotalOverRow(rows[..n], rows[n], key, keys, f);
      assert rows == rows[..n] + [rows[n]];
    }
  }

  /** SUM(CASE WHEN the key is k THEN f ELSE 0 END) over all rows is the sum over the group of k. */
  lemma {:induction false} TotalOfCase<T, K>(rows: seq<T>, key: T -> K, k: K, f: T -> real, onlyK: T -> real)
    requires forall i :: 0 <= i < |rows| ==> onlyK(rows[i]) == if key(rows[i]) == k then f(rows[i]) else 0.0
    ensures Total(rows, onlyK) == TotalAt(rows, key, k, f)
  {
    if rows != [] {
      TotalOfCase(rows[..|rows| - 1], key, k, f, onlyK);
    }
  }
}
