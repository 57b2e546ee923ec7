/**
 * The two tables of worker/db/schema.ts as sequences of rows, with the
 * constraints the schema declares (a primary key on `id`, and a foreign key
 * `episodes.channel_id -> channels.id`), and the row-level meaning of the
 * queries the handlers issue: `findFirst`/`findMany` with an equality
 * where-clause, `update ... where`, `delete ... where` and `insert`.
 */
module Tables {
  import opened Types

  /** The set of values a column takes in a table. */
  function Keys<T(==,!new)>(rows: seq<T>, col: T -> Id): set<Id>
  {
    set r | r in rows :: col(r)
  }

  /** A primary key: no two rows agree on `key`. */
  ghost predicate Distinct<T(!new)>(rows: seq<T>, key: T -> Id)
  {
    forall i, j :: 0 <= i < j < |rows| ==> key(rows[i]) != key(rows[j])
  }

  /** A foreign key: every child row's `fk` names the `pk` of some parent row. */
  ghost predicate References<C(!new), P(!new)>(children: seq<C>, fk: C -> Id, parents: seq<P>, pk: P -> Id)
  {
    forall c :: c in children ==> fk(c) in Keys(parents, pk)
  }

  /**
   * The integrity constraints of the schema: both primary keys, and the
   * foreign key from episodes to channels (an episode never outlives its channel).
   */
  ghost predicate Consistent(channels: seq<Channel>, episodes: seq<Episode>)
  {
    && Distinct(channels, ChannelKey)
    && Distinct(episodes, EpisodeKey)
    && References(episodes, EpisodeChannel, channels, ChannelKey)
  }

  lemma KeysUncons<T(!new)>(rows: seq<T>, col: T -> Id)
    requires |rows| > 0
    ensures Keys(rows, col) == {col(rows[0])} + Keys(rows[1..], col)
  {
    assert forall r :: r in rows <==> r == rows[0] || r in rows[1..];
  }

  lemma DistinctUncons<T(!new)>(rows: seq<T>, key: T -> Id)
    requires |rows| > 0
    ensures Distinct(rows, key) <==> key(rows[0]) !in Keys(rows[1..], key) && Distinct(rows[1..], key)
  {
    var tail := rows[1..];
    if Distinct(rows, key) {
      forall r | r in tail ensures key(r) != key(rows[0]) {
        var j :| 0 <= j < |tail| && tail[j] == r;
        assert rows[j + 1] == r;
      }
      forall i, j | 0 <= i < j < |tail| ensures key(tail[i]) != key(tail[j]) {
        assert tail[i] == rows[i + 1] && tail[j] == rows[j + 1];
      }
    }
    if key(rows[0]) !in Keys(tail, key) && Distinct(tail, key) {
      forall i, j | 0 <= i < j < |rows| ensures key(rows[i]) != key(rows[j]) {
        assert rows[j] == tail[j - 1];
        if i > 0 {
          assert rows[i] == tail[i - 1];
        } else {
          assert rows[j] in tail;
        }
      }
    }
  }

  /** `findFirst({ where: eq(col, id) })`: the first row whose key is `id`, if any. */
  function Find<T(==,!new)>(rows: seq<T>, key: T -> Id, id: Id): (r: Option<T>)
    ensures r.Some? <==> id in Keys(rows, key)
    ensures r.Some? ==> r.value in rows && key(r.value) == id
  {
    if rows == [] then None
    else
      KeysUncons(rows, key);
      if key(rows[0]) == id then Some(rows[0]) else Find(rows[1..], key, id)
  }

  /** Under a primary key, the row `Find` returns is the only one with that key. */
  lemma {:induction false} FindUnique<T(!new)>(rows: seq<T>, key: T -> Id, row: T)
    requires Distinct(rows, key)
    requires row in rows
    ensures Find(rows, key, key(row)) == Some(row)
  {
    DistinctUncons(rows, key);
    if rows[0] != row {
      assert row in rows[1..];
      FindUnique(rows[1..], key, row);
    }
  }

  /** Under a primary key, two rows with the same key are the same row. */
  lemma SameKeySameRow<T(!new)>(rows: seq<T>, key: T -> Id, a: T, b: T)
    requires Distinct(rows, key)
    requires a in rows && b in rows && key(a) == key(b)
    ensures a == b
  {
    FindUnique(rows, key, a);
    FindUnique(rows, key, b);
  }

  /** `findMany({ where: eq(col, v) })`: the rows whose column `col` equals `v`, in table order. */
  function Select<T(==,!new)>(rows: seq<T>, col: T -> Id, v: Id): (r: seq<T>)
    ensures forall x :: x in r <==> x in rows && col(x) == v
    ensures forall x :: multiset(r)[x] == if col(x) == v then multiset(rows)[x] else 0
    ensures |r| <= |rows|
  {
    if rows == [] then []
    else
      var rest := Select(rows[1..], col, v);
      assert forall x :: x in rows <==> x == rows[0] || x in rows[1..];
      assert rows == [rows[0]] + rows[1..];
      if col(rows[0]) == v then [rows[0]] + rest else rest
  }

  /** Selecting rows keeps a primary key a primary key: no row is listed twice. */
  lemma {:induction false} SelectKeepsDistinct<T(!new)>(rows: seq<T>, key: T -> Id, col: T -> Id, v: Id)
    requires Distinct(rows, key)
    ensures Distinct(Select(rows, col, v), key)
  {
    if rows != [] {
      DistinctUncons(rows, key);
      SelectKeepsDistinct(rows[1..], key, col, v);
      var rest := Select(rows[1..], col, v);
      if col(rows[0]) == v {
        assert Select(rows, col, v) == [rows[0]] + rest;
        assert ([rows[0]] + rest)[1..] == rest;
        assert Keys(rest, key) <= Keys(rows[1..], key);
        DistinctUncons([rows[0]] + rest, key);
      }
    }
  }

  /** `delete(...).where(eq(col, v))`: the table left after deleting every row whose `col` equals `v`. */
  function Remove<T(==,!new)>(rows: seq<T>, col: T -> Id, v: Id): (r: seq<T>)
    ensures forall x :: x in r <==> x in rows && col(x) != v
    ensures Keys(r, col) == Keys(rows, col) - {v}
    ensures v !in Keys(rows, col) ==> r == rows
  {
    if rows == [] then []
    else
      var rest := Remove(rows[1..], col, v);
      assert forall x :: x in rows <==> x == rows[0] || x in rows[1..];
      KeysUncons(rows, col);
      if col(rows[0]) == v then rest
      else
        assert rows == [rows[0]] + rows[1..];
        [rows[0]] + rest
  }

  /** Deleting rows keeps a primary key a primary key. */
  lemma {:induction false} RemoveKeepsDistinct<T(!new)>(rows: seq<T>, key: T -> Id, col: T -> Id, v: Id)
    requires Distinct(rows, key)
    ensures Distinct(Remove(rows, col, v), key)
  {
    if rows != [] {
      DistinctUncons(rows, key);
      RemoveKeepsDistinct(rows[1..], key, col, v);
      var rest := Remove(rows[1..], col, v);
      if col(rows[0]) != v {
        assert Remove(rows, col, v) == [rows[0]] + rest;
        assert ([rows[0]] + rest)[1..] == rest;
        assert Keys(rest, key) <= Keys(rows[1..], key);
        DistinctUncons([rows[0]] + rest, key);
      }
    }
  }

  /**
   * `update(...).set(...).where(eq(key, id))`: every row whose key is `id` is
   * replaced by `change` of it (which keeps the key); every other row is kept.
   */
  function Update<T(==,!new)>(rows: seq<T>, key: T -> Id, id: Id, change: T -> T): (r: seq<T>)
    requires forall x :: key(change(x)) == key(x)
    ensures |r| == |rows|
    ensures forall i :: 0 <= i < |rows| ==> r[i] == if key(rows[i]) == id then change(rows[i]) else rows[i]
  {
    if rows == [] then []
    else [if key(rows[0]) == id then change(rows[0]) else rows[0]] + Update(rows[1..], key, id, change)
  }

  /** An update changes no key: the key set and the primary key survive it, and an absent key changes nothing. */
  lemma UpdateKeepsKeys<T(!new)>(rows: seq<T>, key: T -> Id, id: Id, change: T -> T)
    requires forall x :: key(change(x)) == key(x)
    ensures Keys(Update(rows, key, id, change), key) == Keys(rows, key)
    ensures Distinct(rows, key) ==> Distinct(Update(rows, key, id, change), key)
    ensures id !in Keys(rows, key) ==> Update(rows, key, id, change) == rows
  {
    var r := Update(rows, key, id, change);
    forall k | k in Keys(rows, key) ensures k in Keys(r, key) {
      var i :| 0 <= i < |rows| && key(rows[i]) == k;
      assert key(r[i]) == k;
    }
    forall k | k in Keys(r, key) ensures k in Keys(rows, key) {
      var i :| 0 <= i < |r| && key(r[i]) == k;
      assert key(rows[i]) == k;
    }
    if id !in Keys(rows, key) {
      forall i | 0 <= i < |rows| ensures r[i] == rows[i] {
        assert rows[i] in rows;
      }
    }
  }

  /** Under a primary key, an update by a present key changes exactly the one row `Find` returns. */
  lemma UpdateOneRow<T(!new)>(rows: seq<T>, key: T -> Id, id: Id, change: T -> T)
    requires forall x :: key(change(x)) == key(x)
    requires Distinct(rows, key) && id in Keys(rows, key)
    ensures forall i :: 0 <= i < |rows| ==>
      Update(rows, key, id, change)[i] == if key(rows[i]) == id then change(Find(rows, key, id).value) else rows[i]
  {
    forall i | 0 <= i < |rows| && key(rows[i]) == id ensures rows[i] == Find(rows, key, id).value {
      FindUnique(rows, key, rows[i]);
    }
  }

  /** An update that keeps a foreign-key column keeps the foreign key. */
  lemma UpdateKeepsReferences<C(!new), P(!new)>(
    children: seq<C>, key: C -> Id, id: Id, change: C -> C, fk: C -> Id, parents: seq<P>, pk: P -> Id)
    requires forall x :: key(change(x)) == key(x)
    requires forall x :: fk(change(x)) == fk(x)
    requires References(children, fk, parents, pk)
    ensures References(Update(children, key, id, change), fk, parents, pk)
  {
    var r := Update(children, key, id, change);
    forall c | c in r ensures fk(c) in Keys(parents, pk) {
      var i :| 0 <= i < |r| && r[i] == c;
      assert children[i] in children;
    }
  }

  /** `returning()` of an update: the row found under `id` afterwards is the changed old row. */
  lemma {:induction false} FindAfterUpdate<T(!new)>(rows: seq<T>, key: T -> Id, id: Id, change: T -> T)
    requires forall x :: key(change(x)) == key(x)
    ensures Find(Update(rows, key, id, change), key, id) ==
            match Find(rows, key, id) case None => None case Some(row) => Some(change(row))
  {
    if rows != [] {
      var r := Update(rows, key, id, change);
      assert r[1..] == Update(rows[1..], key, id, change);
      FindAfterUpdate(rows[1..], key, id, change);
    }
  }

  /** The table after `insert(...).values(row)`: the new row follows the old ones. */
  function Insert<T(==,!new)>(rows: seq<T>, row: T): (r: seq<T>)
    ensures forall x :: x in r <==> x in rows || x == row
    ensures |r| == |rows| + 1 && r[|rows|] == row && r[..|rows|] == rows
  {
    rows + [row]
  }

  /** Inserting a row whose key is fresh keeps the primary key. */
  lemma InsertKeepsDistinct<T(!new)>(rows: seq<T>, key: T -> Id, row: T)
    requires Distinct(rows, key)
    requires key(row) !in Keys(rows, key)
    ensures Distinct(Insert(rows, row), key)
    ensures Keys(Insert(rows, row), key) == Keys(rows, key) + {key(row)}
  {
    var r := Insert(rows, row);
    forall i, j | 0 <= i < j < |r| ensures key(r[i]) != key(r[j]) {
      if j == |rows| {
        assert r[i] == rows[i] && rows[i] in rows;
      } else {
        assert r[i] == rows[i] && r[j] == rows[j];
      }
    }
  }
}
