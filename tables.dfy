/**
 * Row-table operations shared by the backend model: a table is a sequence
 * of rows kept in insertion order; `idOf` reads a row's primary key and
 * `refOf` one of its (nullable) foreign keys.
 */
module Tables {
  import opened Wrappers
  import opened Seqs

  /** Some row has primary key `id`. */
  predicate HasId<R>(rows: seq<R>, idOf: R -> int, id: int)
  {
    exists j :: 0 <= j < |rows| && idOf(rows[j]) == id
  }

  /** `SELECT ... WHERE id = $1`, first row. */
  function Find<R>(rows: seq<R>, idOf: R -> int, id: int): (r: Option<R>)
    ensures r.Some? <==> HasId(rows, idOf, id)
    ensures r.Some? ==> r.value in rows && idOf(r.value) == id
  {
    if rows == [] then None
    else if idOf(rows[0]) == id then Some(rows[0])
    else
      var r := Find(rows[1..], idOf, id);
      assert HasId(rows, idOf, id) ==> HasId(rows[1..], idOf, id) by {
        if HasId(rows, idOf, id) {
          var j :| 0 <= j < |rows| && idOf(rows[j]) == id;
          assert rows[1..][j - 1] == rows[j];
        }
      }
      assert HasId(rows[1..], idOf, id) ==> HasId(rows, idOf, id) by {
        if HasId(rows[1..], idOf, id) {
          var j :| 0 <= j < |rows[1..]| && idOf(rows[1..][j]) == id;
          assert rows[j + 1] == rows[1..][j];
        }
      }
      r
  }

  /** Primary keys strictly increase along the table (serial keys, insertion order). */
  predicate Ascending<R>(rows: seq<R>, idOf: R -> int)
  {
    forall i, j :: 0 <= i < j < |rows| ==> idOf(rows[i]) < idOf(rows[j])
  }

  /** Every primary key is below the next serial value. */
  predicate Below<R>(rows: seq<R>, idOf: R -> int, bound: int)
  {
    forall i :: 0 <= i < |rows| ==> idOf(rows[i]) < bound
  }

  /** Every non-null foreign key names an existing parent row. */
  predicate RefsOk<C, P>(children: seq<C>, refOf: C -> Option<int>, parents: seq<P>, idOf: P -> int)
  {
    forall i :: 0 <= i < |children| && refOf(children[i]).Some? ==> HasId(parents, idOf, refOf(children[i]).value)
  }

  /** No row refers to `id`. */
  predicate Unreferenced<C>(children: seq<C>, refOf: C -> Option<int>, id: int)
  {
    forall i :: 0 <= i < |children| ==> refOf(children[i]) != Some(id)
  }

  /** The rows a `DELETE ... WHERE id = d` keeps. */
  function NotId<R>(idOf: R -> int, d: int): R -> bool
  {
    (x: R) => idOf(x) != d
  }

  /** The rows a `DELETE ... WHERE ref = d` keeps. */
  function NotRef<R>(refOf: R -> Option<int>, d: int): R -> bool
  {
    (x: R) => refOf(x) != Some(d)
  }

  /** `DELETE FROM t WHERE id = $1`. */
  function DeleteId<R>(rows: seq<R>, idOf: R -> int, id: int): (r: seq<R>)
    ensures forall x :: x in r ==> x in rows && idOf(x) != id
    ensures forall i :: 0 <= i < |rows| && idOf(rows[i]) != id ==> rows[i] in r
  {
    Filter(rows, NotId(idOf, id))
  }

  /** `DELETE FROM t WHERE ref = $1` (and `ON DELETE CASCADE`). */
  function DeleteRef<R>(rows: seq<R>, refOf: R -> Option<int>, id: int): (r: seq<R>)
    ensures forall x :: x in r ==> x in rows && refOf(x) != Some(id)
    ensures forall i :: 0 <= i < |rows| && refOf(rows[i]) != Some(id) ==> rows[i] in r
  {
    Filter(rows, NotRef(refOf, id))
  }

  /** `UPDATE t SET ... WHERE id = $n`: `f` applied to the rows with that key. */
  function UpdateId<R>(rows: seq<R>, idOf: R -> int, id: int, f: R -> R): (r: seq<R>)
    ensures |r| == |rows|
    ensures forall i :: 0 <= i < |rows| ==> r[i] == if idOf(rows[i]) == id then f(rows[i]) else rows[i]
  {
    seq(|rows|, i requires 0 <= i < |rows| => if idOf(rows[i]) == id then f(rows[i]) else rows[i])
  }

  lemma HasIdMember<R>(rows: seq<R>, idOf: R -> int, x: R)
    requires x in rows
    ensures HasId(rows, idOf, idOf(x))
  {
    var j :| 0 <= j < |rows| && rows[j] == x;
  }

  /** After deleting key `d`, exactly the other keys remain. */
  lemma HasIdDelete<R>(rows: seq<R>, idOf: R -> int, d: int, x: int)
    ensures HasId(DeleteId(rows, idOf, d), idOf, x) <==> HasId(rows, idOf, x) && x != d
  {
    var r := DeleteId(rows, idOf, d);
    if HasId(r, idOf, x) {
      var j :| 0 <= j < |r| && idOf(r[j]) == x;
      assert r[j] in r;
      HasIdMember(rows, idOf, r[j]);
    }
    if HasId(rows, idOf, x) && x != d {
      var j :| 0 <= j < |rows| && idOf(rows[j]) == x;
      assert rows[j] in r;
      HasIdMember(r, idOf, rows[j]);
    }
  }

  /** Appending a row adds exactly its key. */
  lemma HasIdSnoc<R>(rows: seq<R>, idOf: R -> int, y: R, x: int)
    ensures HasId(rows + [y], idOf, x) <==> HasId(rows, idOf, x) || idOf(y) == x
  {
    if HasId(rows + [y], idOf, x) {
      var j :| 0 <= j < |rows + [y]| && idOf((rows + [y])[j]) == x;
      if j < |rows| {
        assert (rows + [y])[j] == rows[j];
      }
    }
    if HasId(rows, idOf, x) {
      var j :| 0 <= j < |rows| && idOf(rows[j]) == x;
      assert (rows + [y])[j] == rows[j];
    }
    if idOf(y) == x {
      assert (rows + [y])[|rows|] == y;
    }
  }

  /** Updates that keep every key keep the set of keys. */
  lemma HasIdUpdate<R>(rows: seq<R>, idOf: R -> int, id: int, f: R -> R, x: int)
    requires forall r :: idOf(f(r)) == idOf(r)
    ensures HasId(UpdateId(rows, idOf, id, f), idOf, x) <==> HasId(rows, idOf, x)
  {
    var u := UpdateId(rows, idOf, id, f);
    if HasId(rows, idOf, x) {
      var j :| 0 <= j < |rows| && idOf(rows[j]) == x;
      assert idOf(u[j]) == x;
    }
    if HasId(u, idOf, x) {
      var j :| 0 <= j < |u| && idOf(u[j]) == x;
      assert idOf(rows[j]) == x;
    }
  }

  lemma {:induction false} AscendingFilter<R>(rows: seq<R>, idOf: R -> int, p: R -> bool)
    requires Ascending(rows, idOf)
    ensures Ascending(Filter(rows, p), idOf)
  {
    if rows != [] {
      AscendingFilter(rows[1..], idOf, p);
      var rest := Filter(rows[1..], p);
      if p(rows[0]) {
        forall k | 0 <= k < |rest| ensures idOf(rows[0]) < idOf(rest[k]) {
          assert rest[k] in rows[1..];
          var m :| 0 <= m < |rows[1..]| && rows[1..][m] == rest[k];
          assert rows[m + 1] == rest[k];
        }
        var r := [rows[0]] + rest;
        forall i, j | 0 <= i < j < |r| ensures idOf(r[i]) < idOf(r[j]) {
          if i == 0 {
            assert r[j] == rest[j - 1];
          } else {
            assert r[i] == rest[i - 1] && r[j] == rest[j - 1];
          }
        }
      }
    }
  }

  lemma BelowFilter<R>(rows: seq<R>, idOf: R -> int, p: R -> bool, bound: int)
    requires Below(rows, idOf, bound)
    ensures Below(Filter(rows, p), idOf, bound)
  {
    var r := Filter(rows, p);
    forall i | 0 <= i < |r| ensures idOf(r[i]) < bound {
      assert r[i] in rows;
    }
  }

  /** Keys ascend along the table and lie below the next serial value. */
  predicate Keyed<R>(rows: seq<R>, idOf: R -> int, bound: int)
  {
    Ascending(rows, idOf) && Below(rows, idOf, bound)
  }

  /** A table stays well-keyed when rows are removed. */
  lemma KeyedFilter<R>(rows: seq<R>, idOf: R -> int, bound: int, p: R -> bool)
    requires Keyed(rows, idOf, bound)
    ensures Keyed(Filter(rows, p), idOf, bound)
  {
    AscendingFilter(rows, idOf, p);
    BelowFilter(rows, idOf, p, bound);
  }

  lemma KeyedDeleteId<R>(rows: seq<R>, idOf: R -> int, bound: int, d: int)
    requires Keyed(rows, idOf, bound)
    ensures Keyed(DeleteId(rows, idOf, d), idOf, bound)
  {
    KeyedFilter(rows, idOf, bound, NotId(idOf, d));
  }

  lemma KeyedDeleteRef<R>(rows: seq<R>, idOf: R -> int, bound: int, refOf: R -> Option<int>, d: int)
    requires Keyed(rows, idOf, bound)
    ensures Keyed(DeleteRef(rows, refOf, d), idOf, bound)
  {
    KeyedFilter(rows, idOf, bound, NotRef(refOf, d));
  }

  /** A table stays well-keyed when a row with the next serial key is appended. */
  lemma KeyedInsert<R>(rows: seq<R>, idOf: R -> int, bound: int, y: R)
    requires Keyed(rows, idOf, bound) && idOf(y) == bound
    ensures Keyed(rows + [y], idOf, bound + 1)
  {
    var r := rows + [y];
    forall i, j | 0 <= i < j < |r| ensures idOf(r[i]) < idOf(r[j]) {
      assert r[i] == rows[i];
      if j < |rows| {
        assert r[j] == rows[j];
      }
    }
  }

  /** ... and when an update keeps every key. */
  lemma KeyedUpdate<R>(rows: seq<R>, idOf: R -> int, bound: int, id: int, f: R -> R)
    requires Keyed(rows, idOf, bound)
    requires forall r :: idOf(f(r)) == idOf(r)
    ensures Keyed(UpdateId(rows, idOf, id, f), idOf, bound)
  {
  }

  /** Raising the serial value keeps a table well-keyed. */
  lemma KeyedMore<R>(rows: seq<R>, idOf: R -> int, bound: int)
    requires Keyed(rows, idOf, bound)
    ensures Keyed(rows, idOf, bound + 1)
  {
  }

  /** No two rows share a `key` (a `UNIQUE` constraint). */
  predicate DistinctBy<R, K(==)>(rows: seq<R>, key: R -> K)
  {
    forall i, j :: 0 <= i < j < |rows| ==> key(rows[i]) != key(rows[j])
  }

  /** Some row has this `key`. */
  predicate HasKey<R, K(==)>(rows: seq<R>, key: R -> K, k: K)
  {
    exists j :: 0 <= j < |rows| && key(rows[j]) == k
  }

  lemma {:induction false} DistinctFilter<R, K>(rows: seq<R>, key: R -> K, p: R -> bool)
    requires DistinctBy(rows, key)
    ensures DistinctBy(Filter(rows, p), key)
  {
    if rows != [] {
      DistinctFilter(rows[1..], key, p);
      var rest := Filter(rows[1..], p);
      if p(rows[0]) {
        forall k | 0 <= k < |rest| ensures key(rows[0]) != key(rest[k]) {
          assert rest[k] in rows[1..];
          var m :| 0 <= m < |rows[1..]| && rows[1..][m] == rest[k];
          assert rows[m + 1] == rest[k];
        }
        var r := [rows[0]] + rest;
        forall i, j | 0 <= i < j < |r| ensures key(r[i]) != key(r[j]) {
          if i == 0 {
            assert r[j] == rest[j - 1];
          } else {
            assert r[i] == rest[i - 1] && r[j] == rest[j - 1];
          }
        }
      }
    }
  }

  lemma DistinctDeleteId<R, K>(rows: seq<R>, key: R -> K, idOf: R -> int, d: int)
    requires DistinctBy(rows, key)
    ensures DistinctBy(DeleteId(rows, idOf, d), key)
  {
    DistinctFilter(rows, key, NotId(idOf, d));
  }

  lemma DistinctDeleteRef<R, K>(rows: seq<R>, key: R -> K, refOf: R -> Option<int>, d: int)
    requires DistinctBy(rows, key)
    ensures DistinctBy(DeleteRef(rows, refOf, d), key)
  {
    DistinctFilter(rows, key, NotRef(refOf, d));
  }

  /** Appending a row with a fresh key keeps the keys distinct. */
  lemma DistinctInsert<R, K>(rows: seq<R>, key: R -> K, y: R)
    requires DistinctBy(rows, key) && !HasKey(rows, key, key(y))
    ensures DistinctBy(rows + [y], key)
  {
    var r := rows + [y];
    forall i, j | 0 <= i < j < |r| ensures key(r[i]) != key(r[j]) {
      assert r[i] == rows[i];
      if j < |rows| {
        assert r[j] == rows[j];
      }
    }
  }

  /** Any selection of a table's rows keeps their references valid. */
  lemma RefsSubset<C, P>(children: seq<C>, sub: seq<C>, refOf: C -> Option<int>, parents: seq<P>, idOf: P -> int)
    requires RefsOk(children, refOf, parents, idOf)
    requires forall x :: x in sub ==> x in children
    ensures RefsOk(sub, refOf, parents, idOf)
  {
    forall i | 0 <= i < |sub| && refOf(sub[i]).Some? ensures HasId(parents, idOf, refOf(sub[i]).value) {
      assert sub[i] in sub;
    }
  }

  /** Deleting a parent nobody refers to keeps the references valid. */
  lemma RefsDeleteParent<C, P>(children: seq<C>, refOf: C -> Option<int>, parents: seq<P>, idOf: P -> int, d: int)
    requires RefsOk(children, refOf, parents, idOf) && Unreferenced(children, refOf, d)
    ensures RefsOk(children, refOf, DeleteId(parents, idOf, d), idOf)
  {
    forall i | 0 <= i < |children| && refOf(children[i]).Some?
      ensures HasId(DeleteId(parents, idOf, d), idOf, refOf(children[i]).value)
    {
      HasIdDelete(parents, idOf, d, refOf(children[i]).value);
    }
  }

  /** Cascading the delete to the children leaves none of them referring to it. */
  lemma CascadeUnreferences<C>(children: seq<C>, refOf: C -> Option<int>, d: int)
    ensures Unreferenced(DeleteRef(children, refOf, d), refOf, d)
  {
    var r := DeleteRef(children, refOf, d);
    forall i | 0 <= i < |r| ensures refOf(r[i]) != Some(d) {
      assert r[i] in r;
    }
  }

  /** A new parent row keeps the references valid. */
  lemma RefsAddParent<C, P>(children: seq<C>, refOf: C -> Option<int>, parents: seq<P>, idOf: P -> int, y: P)
    requires RefsOk(children, refOf, parents, idOf)
    ensures RefsOk(children, refOf, parents + [y], idOf)
  {
    forall i | 0 <= i < |children| && refOf(children[i]).Some?
      ensures HasId(parents + [y], idOf, refOf(children[i]).value)
    {
      HasIdSnoc(parents, idOf, y, refOf(children[i]).value);
    }
  }

  /** A new child whose reference exists keeps the references valid. */
  lemma RefsAddChild<C, P>(children: seq<C>, refOf: C -> Option<int>, parents: seq<P>, idOf: P -> int, y: C)
    requires RefsOk(children, refOf, parents, idOf)
    requires refOf(y).Some? ==> HasId(parents, idOf, refOf(y).value)
    ensures RefsOk(children + [y], refOf, parents, idOf)
  {
    var r := children + [y];
    forall i | 0 <= i < |r| && refOf(r[i]).Some? ensures HasId(parents, idOf, refOf(r[i]).value) {
      if i < |children| {
        assert r[i] == children[i];
      }
    }
  }

  /** A parent update that keeps the keys keeps the references valid. */
  lemma RefsUpdateParent<C, P>(children: seq<C>, refOf: C -> Option<int>, parents: seq<P>, idOf: P -> int, id: int, f: P -> P)
    requires RefsOk(children, refOf, parents, idOf)
    requires forall r :: idOf(f(r)) == idOf(r)
    ensures RefsOk(children, refOf, UpdateId(parents, idOf, id, f), idOf)
  {
    forall i | 0 <= i < |children| && refOf(children[i]).Some?
      ensures HasId(UpdateId(parents, idOf, id, f), idOf, refOf(children[i]).value)
    {
      HasIdUpdate(parents, idOf, id, f, refOf(children[i]).value);
    }
  }

  // ---- whole-row rewrites ------------------------------------------------------

  /** The row `v` in place of the row with its key. */
  function Overwrite<R>(idOf: R -> int, v: R): R -> R
  {
    (x: R) => if idOf(x) == idOf(v) then v else x
  }

  /** `UPDATE t SET ... WHERE id = $n`, whose new row is `v`. */
  function SetRow<R>(rows: seq<R>, idOf: R -> int, v: R): (r: seq<R>)
    ensures |r| == |rows|
    ensures forall i :: 0 <= i < |rows| ==> r[i] == if idOf(rows[i]) == idOf(v) then v else rows[i]
  {
    UpdateId(rows, idOf, idOf(v), Overwrite(idOf, v))
  }

  /** After `SetRow`, a row carrying the id of `v` is `v`. */
  lemma SetRowWithId<R>(rows: seq<R>, idOf: R -> int, v: R, i: int)
    requires 0 <= i < |rows| && idOf(SetRow(rows, idOf, v)[i]) == idOf(v)
    ensures SetRow(rows, idOf, v)[i] == v
  {
  }

  lemma HasIdSetRow<R>(rows: seq<R>, idOf: R -> int, v: R, x: int)
    ensures HasId(SetRow(rows, idOf, v), idOf, x) <==> HasId(rows, idOf, x)
  {
    HasIdUpdate(rows, idOf, idOf(v), Overwrite(idOf, v), x);
  }

  lemma KeyedSetRow<R>(rows: seq<R>, idOf: R -> int, bound: int, v: R)
    requires Keyed(rows, idOf, bound)
    ensures Keyed(SetRow(rows, idOf, v), idOf, bound)
  {
    KeyedUpdate(rows, idOf, bound, idOf(v), Overwrite(idOf, v));
  }

  /** With distinct ids, the new row keeps a `UNIQUE` key distinct when no other row has its key. */
  lemma DistinctSetRow<R, K>(rows: seq<R>, idOf: R -> int, key: R -> K, v: R)
    requires DistinctBy(rows, key) && Ascending(rows, idOf)
    requires forall i :: 0 <= i < |rows| && idOf(rows[i]) != idOf(v) ==> key(rows[i]) != key(v)
    ensures DistinctBy(SetRow(rows, idOf, v), key)
  {
    var r := SetRow(rows, idOf, v);
    forall i, j | 0 <= i < j < |r| ensures key(r[i]) != key(r[j]) {
      assert idOf(rows[i]) < idOf(rows[j]);
    }
  }

  /** Replacing row `j` by one with the same id and the same key keeps the keys distinct. */
  lemma DistinctSetSameKey<R, K>(rows: seq<R>, idOf: R -> int, key: R -> K, j: int, v: R)
    requires DistinctBy(rows, key) && Ascending(rows, idOf)
    requires 0 <= j < |rows| && idOf(rows[j]) == idOf(v) && key(rows[j]) == key(v)
    ensures DistinctBy(SetRow(rows, idOf, v), key)
  {
    forall i | 0 <= i < |rows| && idOf(rows[i]) != idOf(v) ensures key(rows[i]) != key(v) {
      assert i != j;
    }
    DistinctSetRow(rows, idOf, key, v);
  }

  lemma RefsSetParent<C, P>(children: seq<C>, refOf: C -> Option<int>, parents: seq<P>, idOf: P -> int, v: P)
    requires RefsOk(children, refOf, parents, idOf)
    ensures RefsOk(children, refOf, SetRow(parents, idOf, v), idOf)
  {
    RefsUpdateParent(children, refOf, parents, idOf, idOf(v), Overwrite(idOf, v));
  }

  /** A rewritten child whose reference exists keeps the references valid. */
  lemma RefsSetChild<C, P>(children: seq<C>, cidOf: C -> int, refOf: C -> Option<int>, parents: seq<P>, idOf: P -> int, v: C)
    requires RefsOk(children, refOf, parents, idOf)
    requires refOf(v).Some? ==> HasId(parents, idOf, refOf(v).value)
    ensures RefsOk(SetRow(children, cidOf, v), refOf, parents, idOf)
  {
  }

  /** A rewritten child that does not refer to `d` leaves `d` unreferenced. */
  lemma UnreferencedSetChild<C>(children: seq<C>, cidOf: C -> int, refOf: C -> Option<int>, d: int, v: C)
    requires Unreferenced(children, refOf, d) && refOf(v) != Some(d)
    ensures Unreferenced(SetRow(children, cidOf, v), refOf, d)
  {
  }

  // ---- column-wide rewrites (`ON DELETE SET NULL`) -----------------------------

  lemma KeyedMap<R>(rows: seq<R>, idOf: R -> int, bound: int, f: R -> R)
    requires Keyed(rows, idOf, bound) && forall r :: idOf(f(r)) == idOf(r)
    ensures Keyed(Map(rows, f), idOf, bound)
  {
  }

  lemma DistinctMap<R, K>(rows: seq<R>, key: R -> K, f: R -> R)
    requires DistinctBy(rows, key) && forall r :: key(f(r)) == key(r)
    ensures DistinctBy(Map(rows, f), key)
  {
  }

  /** A rewrite that keeps a reference column keeps its references valid. */
  lemma RefsMap<C, P>(children: seq<C>, refOf: C -> Option<int>, parents: seq<P>, idOf: P -> int, f: C -> C)
    requires RefsOk(children, refOf, parents, idOf) && forall r :: refOf(f(r)) == refOf(r)
    ensures RefsOk(Map(children, f), refOf, parents, idOf)
  {
  }

  // ---- deletes and their references ---------------------------------------------

  /** `ON DELETE CASCADE`: deleting a parent with its children keeps the references valid. */
  lemma RefsCascade<C, P>(children: seq<C>, refOf: C -> Option<int>, parents: seq<P>, idOf: P -> int, d: int)
    requires RefsOk(children, refOf, parents, idOf)
    ensures RefsOk(DeleteRef(children, refOf, d), refOf, DeleteId(parents, idOf, d), idOf)
  {
    var kept := DeleteRef(children, refOf, d);
    RefsSubset(children, kept, refOf, parents, idOf);
    CascadeUnreferences(children, refOf, d);
    RefsDeleteParent(kept, refOf, parents, idOf, d);
  }

  /** Deleting children by one column keeps their other references valid. */
  lemma RefsDeleteChildren<C, P>(children: seq<C>, col: C -> Option<int>, d: int,
                                 refOf: C -> Option<int>, parents: seq<P>, idOf: P -> int)
    requires RefsOk(children, refOf, parents, idOf)
    ensures RefsOk(DeleteRef(children, col, d), refOf, parents, idOf)
  {
    RefsSubset(children, DeleteRef(children, col, d), refOf, parents, idOf);
  }

  /** Deleting a child by its key keeps its references valid. */
  lemma RefsDeleteChild<C, P>(children: seq<C>, cidOf: C -> int, d: int,
                              refOf: C -> Option<int>, parents: seq<P>, idOf: P -> int)
    requires RefsOk(children, refOf, parents, idOf)
    ensures RefsOk(DeleteId(children, cidOf, d), refOf, parents, idOf)
  {
    RefsSubset(children, DeleteId(children, cidOf, d), refOf, parents, idOf);
  }
}
