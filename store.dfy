/**
 * An in-memory stand-in for one database table: records keyed by an integer primary
 * key, with the next key handed out by a counter. Every CRUD module of the repository
 * (chores, meals, members, products, orders) works against one of these.
 */
module Store {
  import opened Wrappers

  class Table<R> {
    var rows: map<int, R>
    var nextId: int

    /** Every stored key is positive and below the next key to be handed out. */
    ghost predicate Valid()
      reads this
    {
      nextId >= 1 && forall id :: id in rows ==> 1 <= id < nextId
    }

    constructor ()
      ensures Valid() && rows == map[] && nextId == 1
    {
      rows := map[];
      nextId := 1;
    }

    /** `db.add(record); db.commit()`: the record is stored under a key that was free. */
    method Add(r: R) returns (id: int)
      requires Valid()
      modifies this
      ensures Valid()
      ensures id >= 1 && id !in old(rows)
      ensures rows == old(rows)[id := r]
    {
      id := nextId;
      rows := rows[id := r];
      nextId := nextId + 1;
    }

    /** `query.filter(id == key).first()`: the record, or nothing when the key is absent. */
    method Get(id: int) returns (r: Option<R>)
      ensures r.None? <==> id !in rows
      ensures r.Some? ==> id in rows && r.value == rows[id]
    {
      if id in rows {
        r := Some(rows[id]);
      } else {
        r := None;
      }
    }

    /** `query.all()`: every stored record exactly once, in increasing key order. */
    method All() returns (all: seq<(int, R)>)
      requires Valid()
      ensures forall k :: 0 <= k < |all| ==> all[k].0 in rows && rows[all[k].0] == all[k].1
      ensures forall id :: id in rows ==> exists k :: 0 <= k < |all| && all[k].0 == id
      ensures forall j, k :: 0 <= j < k < |all| ==> all[j].0 < all[k].0
      ensures |all| == |rows|
    {
      all := [];
      var i := 1;
      while i < nextId
        invariant 1 <= i <= nextId
        invariant ListsBelow(rows, all, i)
      {
        if i in rows {
          ListsBelowAppend(rows, all, i);
          all := all + [(i, rows[i])];
        }
        i := i + 1;
      }
      ListsAll(rows, all, nextId);
    }

    /** Overwrites the record under an existing key; an absent key changes nothing. */
    method Put(id: int, r: R) returns (ok: bool)
      requires Valid()
      modifies this
      ensures Valid() && nextId == old(nextId)
      ensures ok <==> id in old(rows)
      ensures rows == if ok then old(rows)[id := r] else old(rows)
    {
      ok := id in rows;
      if ok {
        rows := rows[id := r];
      }
    }

    /** `db.delete(record)`: removes exactly that key; an absent key changes nothing. */
    method Remove(id: int) returns (ok: bool)
      requires Valid()
      modifies this
      ensures Valid() && nextId == old(nextId)
      ensures ok <==> id in old(rows)
      ensures rows == old(rows) - {id}
    {
      ok := id in rows;
      rows := rows - {id};
    }
  }

  /** `all` lists, in increasing key order, exactly the records of `rows` whose keys are below `bound`. */
  ghost predicate ListsBelow<R>(rows: map<int, R>, all: seq<(int, R)>, bound: int) {
    (forall k :: 0 <= k < |all| ==> all[k].0 in rows && rows[all[k].0] == all[k].1 && all[k].0 < bound) &&
    (forall id :: id in rows && id < bound ==> exists k :: 0 <= k < |all| && all[k].0 == id) &&
    (forall j, k :: 0 <= j < k < |all| ==> all[j].0 < all[k].0)
  }

  /** Appending the record under `i` extends the listing below `i` to the one below `i + 1`. */
  lemma ListsBelowAppend<R>(rows: map<int, R>, all: seq<(int, R)>, i: int)
    requires ListsBelow(rows, all, i) && i in rows
    ensures ListsBelow(rows, all + [(i, rows[i])], i + 1)
  {
    var all' := all + [(i, rows[i])];
    assert all'[|all'| - 1].0 == i;
    forall id | id in rows && id < i + 1
      ensures exists k :: 0 <= k < |all'| && all'[k].0 == id
    {
      if id < i {
        var k :| 0 <= k < |all| && all[k].0 == id;
        assert all'[k] == all[k];
      }
    }
  }

  /** A listing of every key holds as many records as the map. */
  lemma ListsAll<R>(rows: map<int, R>, all: seq<(int, R)>, bound: int)
    requires ListsBelow(rows, all, bound) && forall id :: id in rows ==> id < bound
    ensures |all| == |rows|
  {
    var keys := set k | 0 <= k < |all| :: all[k].0;
    forall id | id in rows
      ensures id in keys
    {
      var k :| 0 <= k < |all| && all[k].0 == id;
    }
    assert keys == rows.Keys;
    IncreasingKeysCount(all);
  }

  /** Deleting a key just inserted gives the map back. */
  lemma RemoveAfterInsert<K, V>(m: map<K, V>, k: K, v: V)
    requires k !in m
    ensures m[k := v] - {k} == m
  {
    assert (m[k := v] - {k}).Keys == m.Keys;
  }

  /** Strictly increasing keys are pairwise distinct, so there are as many keys as entries. */
  lemma {:induction false} IncreasingKeysCount<R>(all: seq<(int, R)>)
    requires forall j, k :: 0 <= j < k < |all| ==> all[j].0 < all[k].0
    ensures |set k | 0 <= k < |all| :: all[k].0| == |all|
  {
    if all != [] {
      var init := all[..|all| - 1];
      IncreasingKeysCount(init);
      var last := all[|all| - 1].0;
      assert (set k | 0 <= k < |all| :: all[k].0) == (set k | 0 <= k < |init| :: init[k].0) + {last};
      assert last !in (set k | 0 <= k < |init| :: init[k].0);
    }
  }
}
