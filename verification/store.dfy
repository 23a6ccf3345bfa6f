/** The relational store as the route uses it: a destination table keyed by
    destination id and a place table keyed by spot id, both written only with
    insert-if-absent (`ON CONFLICT DO NOTHING`), and the cache gate that reads
    them. */
module Store {
  import opened Places

  /** `parents` is the destination table (id to name). `children` is the
      place table in insertion order; `ChildMap` is its keyed view. */
  datatype Store = Store(parents: map<string, string>, children: seq<Row>)

  /** The place table by spot id: the first row stored under each id. */
  function ChildMap(t: seq<Row>): map<string, Row>
    decreases |t|
  {
    if t == [] then map[]
    else
      var m := ChildMap(t[..|t| - 1]);
      var last := t[|t| - 1];
      if last.spotId in m then m else m[last.spotId := last]
  }

  /** No two rows share a spot id (the primary key). */
  predicate UniqueSpots(t: seq<Row>) {
    forall i, j :: 0 <= i < j < |t| ==> t[i].spotId != t[j].spotId
  }

  /** The store's integrity: unique spot ids, and every place row refers to a
      destination that exists (the foreign key). */
  predicate Valid(s: Store) {
    && UniqueSpots(s.children)
    && forall i :: 0 <= i < |s.children| ==> s.children[i].parentId in s.parents
  }

  /** The keyed view holds exactly the spot ids of the table, each mapped to
      a row of the table with that id. */
  lemma {:induction false} ChildMapContents(t: seq<Row>)
    ensures forall id :: id in ChildMap(t) <==> exists i :: 0 <= i < |t| && t[i].spotId == id
    ensures forall id :: id in ChildMap(t) ==> ChildMap(t)[id] in t && ChildMap(t)[id].spotId == id
    decreases |t|
  {
    if t != [] {
      var front := t[..|t| - 1];
      ChildMapContents(front);
      forall id | exists i :: 0 <= i < |t| && t[i].spotId == id
        ensures id in ChildMap(t)
      {
        var i :| 0 <= i < |t| && t[i].spotId == id;
        if i < |t| - 1 {
          assert front[i] == t[i];
        }
      }
      forall id | id in ChildMap(t)
        ensures exists i :: 0 <= i < |t| && t[i].spotId == id
        ensures ChildMap(t)[id] in t
      {
        if id in ChildMap(front) {
          var i :| 0 <= i < |front| && front[i].spotId == id;
          assert t[i] == front[i];
          assert ChildMap(front)[id] in front;
        } else {
          assert t[|t| - 1].spotId == id;
        }
      }
    }
  }

  /** Insert a destination unless its id exists. */
  function InsertParent(parents: map<string, string>, id: string, name: string): (m: map<string, string>)
    ensures m.Keys == parents.Keys + {id}
    ensures forall k :: k in parents ==> m[k] == parents[k]
    ensures id !in parents ==> m[id] == name
  {
    if id in parents then parents else parents[id := name]
  }

  /** Insert a place row unless its spot id exists. */
  function InsertChild(t: seq<Row>, r: Row): (u: seq<Row>)
    ensures t <= u
    ensures ChildMap(u) == if r.spotId in ChildMap(t) then ChildMap(t) else ChildMap(t)[r.spotId := r]
    ensures UniqueSpots(t) ==> UniqueSpots(u)
  {
    if r.spotId in ChildMap(t) then t
    else
      assert (t + [r])[..|t|] == t;
      ChildMapContents(t);
      t + [r]
  }

  /** Appending rows never changes what the keyed view already holds. */
  lemma {:induction false} ChildMapPrefix(t: seq<Row>, u: seq<Row>)
    requires t <= u
    ensures forall id :: id in ChildMap(t) ==> id in ChildMap(u) && ChildMap(u)[id] == ChildMap(t)[id]
    decreases |u|
  {
    if |u| > |t| {
      var front := u[..|u| - 1];
      assert t <= front;
      ChildMapPrefix(t, front);
    } else {
      assert t == u;
    }
  }

  /** Insert rows one after the other. */
  function InsertAll(t: seq<Row>, rows: seq<Row>): (u: seq<Row>)
    ensures t <= u
    ensures UniqueSpots(t) ==> UniqueSpots(u)
    ensures forall x :: x in u ==> x in t || x in rows
    decreases |rows|
  {
    if rows == [] then t
    else
      var next := InsertChild(t, rows[0]);
      var u := InsertAll(next, rows[1..]);
      assert forall x :: x in next ==> x in t || x == rows[0] by {
        if rows[0].spotId !in ChildMap(t) {
          assert next == t + [rows[0]];
        }
      }
      assert forall x :: x in rows[1..] ==> x in rows;
      u
  }

  /** After a batch, every existing id keeps its row and every written row's
      id is stored. */
  lemma {:induction false} InsertAllKeys(t: seq<Row>, rows: seq<Row>)
    ensures forall id :: id in ChildMap(t) ==>
              id in ChildMap(InsertAll(t, rows)) && ChildMap(InsertAll(t, rows))[id] == ChildMap(t)[id]
    ensures forall x :: x in rows ==> x.spotId in ChildMap(InsertAll(t, rows))
    decreases |rows|
  {
    var u := InsertAll(t, rows);
    ChildMapPrefix(t, u);
    if rows != [] {
      var next := InsertChild(t, rows[0]);
      assert u == InsertAll(next, rows[1..]);
      InsertAllKeys(next, rows[1..]);
      assert forall x :: x in rows ==> x == rows[0] || x in rows[1..];
    }
  }

  /** An id the batch added maps to one of the batch's rows. */
  lemma InsertAllNewIds(t: seq<Row>, rows: seq<Row>)
    ensures forall id :: id in ChildMap(InsertAll(t, rows)) && id !in ChildMap(t) ==>
              ChildMap(InsertAll(t, rows))[id] in rows
  {
    var u := InsertAll(t, rows);
    ChildMapContents(t);
    ChildMapContents(u);
    InsertAllKeys(t, rows);
  }

  /** A second write of the same destination changes nothing: the first
      write wins, whatever name the second one carries. */
  lemma ParentWriteIdempotent(parents: map<string, string>, id: string, name: string, other: string)
    ensures InsertParent(InsertParent(parents, id, name), id, other) == InsertParent(parents, id, name)
  {
  }

  /** A second write of the same spot id changes nothing, whatever the row. */
  lemma ChildWriteFirstWins(t: seq<Row>, r: Row, other: Row)
    requires other.spotId == r.spotId
    ensures InsertChild(InsertChild(t, r), other) == InsertChild(t, r)
  {
  }

  /** Writing rows whose ids are all stored already leaves the table alone. */
  lemma {:induction false} InsertAllStored(t: seq<Row>, rows: seq<Row>)
    requires forall x :: x in rows ==> x.spotId in ChildMap(t)
    ensures InsertAll(t, rows) == t
    decreases |rows|
  {
    if rows != [] {
      assert rows[0] in rows;
      assert InsertChild(t, rows[0]) == t;
      assert forall x :: x in rows[1..] ==> x in rows;
      InsertAllStored(t, rows[1..]);
    }
  }

  /** Repeating a batch of writes is a no-op. */
  lemma InsertAllIdempotent(t: seq<Row>, rows: seq<Row>)
    ensures InsertAll(InsertAll(t, rows), rows) == InsertAll(t, rows)
  {
    InsertAllKeys(t, rows);
    InsertAllStored(InsertAll(t, rows), rows);
  }

  /** The rows the cached read selects for a destination: its own rows that
      are not travel agencies, in table order (before the read's ORDER BY). */
  function CachedRows(t: seq<Row>, parentId: string): (r: seq<Row>)
    ensures |r| <= |t|
    ensures forall x :: x in r <==> x in t && x.parentId == parentId && TravelAgency !in x.types
  {
    if t == [] then []
    else
      var rest := CachedRows(t[1..], parentId);
      assert forall x :: x in t <==> x == t[0] || x in t[1..];
      if t[0].parentId == parentId && TravelAgency !in t[0].types then [t[0]] + rest else rest
  }

  /** The cached read distributes over concatenation: selected rows keep
      their table order and multiplicity. */
  lemma {:induction false} CachedRowsAppend(t: seq<Row>, u: seq<Row>, parentId: string)
    ensures CachedRows(t + u, parentId) == CachedRows(t, parentId) + CachedRows(u, parentId)
    decreases |t|
  {
    if t == [] {
      assert t + u == u;
    } else {
      assert (t + u)[1..] == t[1..] + u;
      CachedRowsAppend(t[1..], u, parentId);
    }
  }

  /** The cached read keeps or drops a single row by the filter alone. */
  lemma CachedRowsSingle(x: Row, parentId: string)
    ensures CachedRows([x], parentId)
            == if x.parentId == parentId && TravelAgency !in x.types then [x] else []
  {
    assert [x][1..] == [];
  }

  /** The cache gate: the destination row exists and at least one of its
      place rows survives the travel-agency filter. */
  predicate CacheHit(s: Store, parentId: string): (b: bool)
    ensures b <==> parentId in s.parents
                   && exists x :: x in s.children && x.parentId == parentId && TravelAgency !in x.types
  {
    var selected := CachedRows(s.children, parentId);
    assert |selected| > 0 ==> selected[0] in selected;
    parentId in s.parents && |CachedRows(s.children, parentId)| > 0
  }
}
