/** Generic operations on a table held as a sequence of rows, in the
    order a full scan returns them. */
module Rows {

  /** The rows that satisfy `keep`, in table order (a WHERE clause). */
  function Filter<R(==,!new)>(rows: seq<R>, keep: R -> bool): (r: seq<R>)
    ensures |r| <= |rows|
    ensures forall x :: x in r <==> x in rows && keep(x)
  {
    if rows == [] then []
    else (if keep(rows[0]) then [rows[0]] else []) + Filter(rows[1..], keep)
  }

  /** The number of rows that satisfy `p` (a COUNT(*) or a rowsAffected). */
  function Count<R(==,!new)>(rows: seq<R>, p: R -> bool): (n: nat)
    ensures n <= |rows|
    ensures n == 0 <==> forall x :: x in rows ==> !p(x)
  {
    if rows == [] then 0
    else (if p(rows[0]) then 1 else 0) + Count(rows[1..], p)
  }

  /** Every row that satisfies `p` replaced by `f` of it (an UPDATE ... WHERE). */
  function Replace<R>(rows: seq<R>, p: R -> bool, f: R -> R): (r: seq<R>)
    ensures |r| == |rows|
    ensures forall i :: 0 <= i < |rows| ==> r[i] == if p(rows[i]) then f(rows[i]) else rows[i]
  {
    seq(|rows|, i requires 0 <= i < |rows| => if p(rows[i]) then f(rows[i]) else rows[i])
  }

  /** No two rows share a key (a PRIMARY KEY or UNIQUE constraint). */
  ghost predicate Unique<R, K>(rows: seq<R>, key: R -> K) {
    forall i, j :: 0 <= i < j < |rows| ==> key(rows[i]) != key(rows[j])
  }

  /** The keys present in the table. */
  function Keys<R(==), K>(rows: seq<R>, key: R -> K): set<K> {
    set x | x in rows :: key(x)
  }

  /** Deleting rows keeps a key constraint. */
  lemma {:induction false} FilterKeepsUnique<R(!new), K>(rows: seq<R>, keep: R -> bool, key: R -> K)
    requires Unique(rows, key)
    ensures Unique(Filter(rows, keep), key)
  {
    if rows != [] {
      var tail := rows[1..];
      assert Unique(tail, key) by {
        forall i, j | 0 <= i < j < |tail| ensures key(tail[i]) != key(tail[j]) {
          assert tail[i] == rows[i + 1] && tail[j] == rows[j + 1];
        }
      }
      FilterKeepsUnique(tail, keep, key);
      var ft := Filter(tail, keep);
      if keep(rows[0]) {
        var r := [rows[0]] + ft;
        forall i, j | 0 <= i < j < |r| ensures key(r[i]) != key(r[j]) {
          if i == 0 {
            assert r[j] in tail;
            var k :| 0 <= k < |tail| && tail[k] == r[j];
            assert rows[k + 1] == r[j];
          } else {
            assert r[i] == ft[i - 1] && r[j] == ft[j - 1];
          }
        }
      } else {
        assert Filter(rows, keep) == ft;
      }
    }
  }

  /** Updating rows without touching their keys keeps a key constraint. */
  lemma ReplaceKeepsUnique<R, K>(rows: seq<R>, p: R -> bool, f: R -> R, key: R -> K)
    requires Unique(rows, key)
    requires forall x :: x in rows && p(x) ==> key(f(x)) == key(x)
    ensures Unique(Replace(rows, p, f), key)
  {
    var r := Replace(rows, p, f);
    forall i, j | 0 <= i < j < |r| ensures key(r[i]) != key(r[j]) {
      assert key(r[i]) == key(rows[i]) && key(r[j]) == key(rows[j]);
    }
  }

  lemma ReplaceKeys<R, K>(rows: seq<R>, p: R -> bool, f: R -> R, key: R -> K)
    requires forall x :: x in rows && p(x) ==> key(f(x)) == key(x)
    ensures Keys(Replace(rows, p, f), key) == Keys(rows, key)
  {
    var r := Replace(rows, p, f);
    forall k | k in Keys(rows, key) ensures k in Keys(r, key) {
      var x :| x in rows && key(x) == k;
      var i :| 0 <= i < |rows| && rows[i] == x;
      assert key(r[i]) == k;
    }
    forall k | k in Keys(r, key) ensures k in Keys(rows, key) {
      var x :| x in r && key(x) == k;
      var i :| 0 <= i < |r| && r[i] == x;
      assert key(rows[i]) == k;
    }
  }

  /** Appending a row with a fresh key keeps a key constraint. */
  lemma AppendKeepsUnique<R, K>(rows: seq<R>, x: R, key: R -> K)
    requires Unique(rows, key)
    requires key(x) !in Keys(rows, key)
    ensures Unique(rows + [x], key)
  {
    var r := rows + [x];
    forall i, j | 0 <= i < j < |r| ensures key(r[i]) != key(r[j]) {
      if j == |rows| {
        assert r[i] in rows;
      }
    }
  }

  lemma AppendKeys<R, K>(rows: seq<R>, x: R, key: R -> K)
    ensures Keys(rows + [x], key) == Keys(rows, key) + {key(x)}
  {
  }

  /** Under a key constraint, at most one row has a given key. */
  lemma {:induction false} CountByKeyAtMostOne<R(!new), K>(rows: seq<R>, key: R -> K, k: K, p: R -> bool)
    requires Unique(rows, key)
    requires forall x :: p(x) <==> key(x) == k
    ensures Count(rows, p) <= 1
    ensures Count(rows, p) == 1 <==> k in Keys(rows, key)
  {
    if rows != [] {
      assert Unique(rows[1..], key) by {
        forall i, j | 0 <= i < j < |rows[1..]| ensures key(rows[1..][i]) != key(rows[1..][j]) {
          assert rows[1..][i] == rows[i + 1] && rows[1..][j] == rows[j + 1];
        }
      }
      CountByKeyAtMostOne(rows[1..], key, k, p);
      if p(rows[0]) {
        forall x | x in rows[1..] ensures !p(x) {
          var j :| 0 <= j < |rows[1..]| && rows[1..][j] == x;
          assert rows[j + 1] == x;
        }
      }
      assert Keys(rows, key) == {key(rows[0])} + Keys(rows[1..], key) by {
        assert rows == [rows[0]] + rows[1..];
      }
    }
  }

  /** A WHERE clause every row satisfies keeps the whole table. */
  lemma {:induction false} FilterAll<R(!new)>(rows: seq<R>, keep: R -> bool)
    requires forall x :: x in rows ==> keep(x)
    ensures Filter(rows, keep) == rows
  {
    if rows != [] {
      assert forall x :: x in rows[1..] ==> x in rows;
      FilterAll(rows[1..], keep);
      assert [rows[0]] + rows[1..] == rows;
    }
  }

  /** Deleting the rows with key `k` removes exactly that key. */
  lemma FilterKeys<R(!new), K>(rows: seq<R>, keep: R -> bool, key: R -> K, k: K)
    requires forall x :: keep(x) <==> key(x) != k
    ensures Keys(Filter(rows, keep), key) == Keys(rows, key) - {k}
  {
  }

  /** The position of the row with key `k`. */
  function IndexOf<R(==), K(==)>(rows: seq<R>, key: R -> K, k: K): (i: nat)
    requires k in Keys(rows, key)
    ensures i < |rows| && key(rows[i]) == k
  {
    if key(rows[0]) == k then 0
    else
      assert k in Keys(rows[1..], key) by {
        var x :| x in rows && key(x) == k;
        var j :| 0 <= j < |rows| && rows[j] == x;
        assert j != 0 && rows[1..][j - 1] == x;
      }
      1 + IndexOf(rows[1..], key, k)
  }

  /** Rewriting one row without touching its key keeps a key constraint
      and the set of keys. */
  lemma UpdateAtKeepsUnique<R, K>(rows: seq<R>, i: int, x: R, key: R -> K)
    requires Unique(rows, key) && 0 <= i < |rows| && key(x) == key(rows[i])
    ensures Unique(rows[i := x], key)
    ensures Keys(rows[i := x], key) == Keys(rows, key)
  {
    var r := rows[i := x];
    forall j, l | 0 <= j < l < |r| ensures key(r[j]) != key(r[l]) {
      assert key(r[j]) == key(rows[j]) && key(r[l]) == key(rows[l]);
    }
    forall k | k in Keys(rows, key) ensures k in Keys(r, key) {
      var y :| y in rows && key(y) == k;
      var j :| 0 <= j < |rows| && rows[j] == y;
      assert key(r[j]) == k;
    }
    forall k | k in Keys(r, key) ensures k in Keys(rows, key) {
      var y :| y in r && key(y) == k;
      var j :| 0 <= j < |r| && r[j] == y;
      assert key(rows[j]) == k;
    }
  }

  /** Rewriting one row to a key no other row has keeps a key constraint. */
  lemma UpdateAtFreshKeepsUnique<R, K>(rows: seq<R>, i: int, x: R, key: R -> K)
    requires Unique(rows, key) && 0 <= i < |rows|
    requires forall j :: 0 <= j < |rows| && j != i ==> key(rows[j]) != key(x)
    ensures Unique(rows[i := x], key)
  {
    var r := rows[i := x];
    forall j, l | 0 <= j < l < |r| ensures key(r[j]) != key(r[l]) {
      if j != i && l != i {
        assert r[j] == rows[j] && r[l] == rows[l];
      }
    }
  }

  /** The keys of a table listed one per row. */
  lemma KeysListed<R, K>(rows: seq<R>, key: R -> K, ks: seq<K>)
    requires |ks| == |rows|
    requires forall i :: 0 <= i < |rows| ==> key(rows[i]) == ks[i]
    ensures forall k :: k in Keys(rows, key) <==> k in ks
  {
    forall k | k in Keys(rows, key) ensures k in ks {
      var x :| x in rows && key(x) == k;
      var i :| 0 <= i < |rows| && rows[i] == x;
      assert ks[i] == k;
    }
    forall k | k in ks ensures k in Keys(rows, key) {
      var i :| 0 <= i < |ks| && ks[i] == k;
      assert rows[i] in rows;
    }
  }

  /** One INSERT per row of `rows`, in order, into `table` under the key
      `key`; a row whose key is taken or whose parent row is missing
      (`parentOk` false) raises, ending the run. `n` rows were inserted. */
  method InsertEach<R(==), K(==)>(table: seq<R>, rows: seq<R>, key: R -> K, parentOk: R -> bool)
    returns (result: seq<R>, n: nat)
    requires Unique(table, key)
    ensures n <= |rows| && result == table + rows[..n]
    ensures Unique(result, key)
    ensures forall x :: x in rows[..n] ==> parentOk(x)
    ensures n < |rows| ==> key(rows[n]) in Keys(result, key) || !parentOk(rows[n])
    ensures n == |rows| <==> Unique(table + rows, key) && forall x :: x in rows ==> parentOk(x)
  {
    result, n := table, 0;
    while n < |rows| && key(rows[n]) !in Keys(result, key) && parentOk(rows[n])
      invariant n <= |rows| && result == table + rows[..n]
      invariant Unique(result, key)
      invariant forall x :: x in rows[..n] ==> parentOk(x)
    {
      AppendKeepsUnique(result, rows[n], key);
      assert rows[..n + 1] == rows[..n] + [rows[n]];
      result := result + [rows[n]];
      n := n + 1;
    }
    if n == |rows| {
      assert rows[..n] == rows;
    } else if key(rows[n]) in Keys(result, key) {
      var all := table + rows;
      var x :| x in result && key(x) == key(rows[n]);
      var i :| 0 <= i < |result| && result[i] == x;
      assert all[i] == x && all[|table| + n] == rows[n];
      assert !Unique(all, key);
    } else {
      assert rows[n] in rows;
    }
  }
}
