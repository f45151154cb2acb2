/**
 * A database table as a sequence of rows keyed by their primary key, with
 * the three writes the data access objects use: `@Insert` with the REPLACE
 * conflict strategy, `@Update` and `@Delete`, all matching rows by key.
 */
module Tables {

  /** The rows whose key is not `k`: `@Delete` of an entity with key `k`. */
  function Without<T>(rows: seq<T>, key: T -> int, k: int): (r: seq<T>)
    ensures |r| <= |rows|
    decreases |rows|
  {
    if |rows| == 0 then []
    else if key(rows[0]) == k then Without(rows[1..], key, k)
    else [rows[0]] + Without(rows[1..], key, k)
  }

  /** Deleting by key removes exactly the rows with that key. */
  lemma {:induction false} WithoutMembers<T>(rows: seq<T>, key: T -> int, k: int, x: T)
    ensures x in Without(rows, key, k) <==> x in rows && key(x) != k
    decreases |rows|
  {
    if |rows| > 0 {
      WithoutMembers(rows[1..], key, k, x);
      assert x in rows <==> x == rows[0] || x in rows[1..];
    }
  }

  /** `@Insert(onConflict = REPLACE)`: any row with the same key is dropped, then `x` is stored. */
  function Upsert<T>(rows: seq<T>, key: T -> int, x: T): (r: seq<T>)
    ensures |r| <= |rows| + 1
  {
    Without(rows, key, key(x)) + [x]
  }

  /** After an upsert the table holds `x` and every row with another key, and nothing else. */
  lemma UpsertMembers<T>(rows: seq<T>, key: T -> int, x: T, y: T)
    ensures y in Upsert(rows, key, x) <==> y == x || (y in rows && key(y) != key(x))
  {
    WithoutMembers(rows, key, key(x), y);
  }

  /** `@Update`: the row with `x`'s key, if there is one, becomes `x`; the table is otherwise untouched. */
  function Update<T>(rows: seq<T>, key: T -> int, x: T): (r: seq<T>)
    ensures |r| == |rows|
    decreases |rows|
  {
    if |rows| == 0 then []
    else [if key(rows[0]) == key(x) then x else rows[0]] + Update(rows[1..], key, x)
  }

  /** An update rewrites exactly the rows with `x`'s key, in place. */
  lemma {:induction false} UpdateAt<T>(rows: seq<T>, key: T -> int, x: T, i: nat)
    requires i < |rows|
    ensures Update(rows, key, x)[i] == if key(rows[i]) == key(x) then x else rows[i]
    decreases i
  {
    if i > 0 {
      UpdateAt(rows[1..], key, x, i - 1);
    }
  }

  /** The keys of a table are pairwise distinct. */
  ghost predicate UniqueKeys<T>(rows: seq<T>, key: T -> int) {
    forall i, j :: 0 <= i < j < |rows| ==> key(rows[i]) != key(rows[j])
  }

  /** Every write keeps the primary key unique. */
  lemma {:induction false} WithoutKeepsUniqueKeys<T>(rows: seq<T>, key: T -> int, k: int)
    requires UniqueKeys(rows, key)
    ensures UniqueKeys(Without(rows, key, k), key)
    decreases |rows|
  {
    if |rows| > 0 {
      WithoutKeepsUniqueKeys(rows[1..], key, k);
      var rest := Without(rows[1..], key, k);
      if key(rows[0]) != k {
        forall j | 0 <= j < |rest| ensures key(rest[j]) != key(rows[0]) {
          WithoutMembers(rows[1..], key, k, rest[j]);
          var m :| 0 <= m < |rows[1..]| && rows[1..][m] == rest[j];
          assert rows[m + 1] == rest[j];
        }
        var r := [rows[0]] + rest;
        forall i, j | 0 <= i < j < |r| ensures key(r[i]) != key(r[j]) {
          if i > 0 {
            assert r[i] == rest[i - 1] && r[j] == rest[j - 1];
          }
        }
      }
    }
  }

  lemma UpsertKeepsUniqueKeys<T>(rows: seq<T>, key: T -> int, x: T)
    requires UniqueKeys(rows, key)
    ensures UniqueKeys(Upsert(rows, key, x), key)
  {
    WithoutKeepsUniqueKeys(rows, key, key(x));
    var rest := Without(rows, key, key(x));
    forall j | 0 <= j < |rest| ensures key(rest[j]) != key(x) {
      WithoutMembers(rows, key, key(x), rest[j]);
    }
  }

  lemma UpdateKeepsUniqueKeys<T>(rows: seq<T>, key: T -> int, x: T)
    requires UniqueKeys(rows, key)
    ensures UniqueKeys(Update(rows, key, x), key)
  {
    var r := Update(rows, key, x);
    forall i, j | 0 <= i < j < |r| ensures key(r[i]) != key(r[j]) {
      UpdateAt(rows, key, x, i);
      UpdateAt(rows, key, x, j);
    }
  }

  /** After an upsert the key names exactly the stored row. */
  lemma UpsertThenLookup<T>(rows: seq<T>, key: T -> int, x: T, y: T)
    requires y in Upsert(rows, key, x) && key(y) == key(x)
    ensures y == x
  {
    UpsertMembers(rows, key, x, y);
  }
}
