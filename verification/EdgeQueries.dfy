/** Eager loading over foreign keys: one-to-many (`loadArchives`, `loadNotifications`,
    backend/ent/backupprofile_query.go, backend/ent/repository_query.go), many-to-one
    (`loadRepository`, `loadBackupProfile`, backend/ent/archive_query.go), and the accessors that
    report the result (backend/ent/archive.go). */
module EdgeQueries {
  import opened Prelude

  /** A row of the neighbours' table: its id and the foreign key that refers to the parent. */
  datatype ChildRow = ChildRow(id: int, key: Option<int>)

  /** What a query asks of a row: the caller's own filter, or the key being one of a list. */
  datatype Predicate = KeepIds(ids: set<int>) | KeyIn(keys: seq<int>)

  predicate Holds(p: Predicate, row: ChildRow) {
    match p
    case KeepIds(ids) => row.id in ids
    case KeyIn(keys) => row.key.Some? && row.key.value in keys
  }

  predicate AllHold(ps: seq<Predicate>, row: ChildRow) {
    forall i :: 0 <= i < |ps| ==> Holds(ps[i], row)
  }

  /** The rows a query with these predicates returns, in table order. */
  function Selected(table: seq<ChildRow>, ps: seq<Predicate>): seq<ChildRow> {
    Filter(table, (row: ChildRow) => AllHold(ps, row))
  }

  lemma SelectedSnoc(table: seq<ChildRow>, i: nat, ps: seq<Predicate>)
    requires i < |table|
    ensures Selected(table[..i + 1], ps) == Selected(table[..i], ps) + if AllHold(ps, table[i]) then [table[i]] else []
  {
    FilterSnoc(table, i, (row: ChildRow) => AllHold(ps, row));
  }

  function WithKey(rows: seq<ChildRow>, key: int): seq<ChildRow> {
    Filter(rows, (row: ChildRow) => row.key == Some(key))
  }

  class Child {
    const row: ChildRow

    constructor (row: ChildRow)
      ensures this.row == row
    {
      this.row := row;
    }
  }

  /** The query builder of the neighbours; adding a predicate changes it for good. */
  class ChildQuery {
    var predicates: seq<Predicate>

    constructor (predicates: seq<Predicate>)
      ensures this.predicates == predicates
    {
      this.predicates := predicates;
    }

    method Where(p: Predicate)
      modifies this
      ensures predicates == old(predicates) + [p]
    {
      predicates := predicates + [p];
    }

    method Clone() returns (c: ChildQuery)
      ensures fresh(c) && c.predicates == predicates
    {
      c := new ChildQuery(predicates);
    }

    method All(table: seq<ChildRow>) returns (found: seq<Child>)
      ensures Rows(found) == Selected(table, predicates)
    {
      found := [];
      for i := 0 to |table|
        invariant Rows(found) == Selected(table[..i], predicates)
      {
        SelectedSnoc(table, i, predicates);
        if AllHold(predicates, table[i]) {
          var child := new Child(table[i]);
          found := found + [child];
        }
      }
      assert table[..|table|] == table;
    }
  }

  function Rows(children: seq<Child>): (rows: seq<ChildRow>)
    ensures |rows| == |children|
    ensures forall i :: 0 <= i < |rows| ==> rows[i] == children[i].row
  {
    seq(|children|, i requires 0 <= i < |children| => children[i].row)
  }

  class Parent {
    const id: int
    var children: seq<Child>
    var only: Child?

    constructor (id: int)
      ensures this.id == id && children == [] && only == null
    {
      this.id, children, only := id, [], null;
    }
  }

  /** No later parent has the same id. */
  ghost predicate IsLast(nodes: seq<Parent>, i: nat)
    requires i < |nodes|
  {
    forall j :: i < j < |nodes| ==> nodes[j].id != nodes[i].id
  }

  function Keys(nodes: seq<Parent>): (keys: seq<int>)
    ensures |keys| == |nodes|
    ensures forall i :: 0 <= i < |keys| ==> keys[i] == nodes[i].id
  {
    seq(|nodes|, i requires 0 <= i < |nodes| => nodes[i].id)
  }

  datatype LoadError = NilKey(id: int) | UnexpectedKey(key: int, id: int)

  /** The neighbours that parent `i` is to hold: those with its id as their key, in order. */
  ghost function Share(nodes: seq<Parent>, i: nat, neighbors: seq<Child>): seq<Child>
    requires i < |nodes|
  {
    if neighbors == [] then []
    else
      var last := |neighbors| - 1;
      Share(nodes, i, neighbors[..last]) +
        if IsLast(nodes, i) && neighbors[last].row.key == Some(nodes[i].id) then [neighbors[last]] else []
  }

  lemma ShareSnoc(nodes: seq<Parent>, i: nat, neighbors: seq<Child>, k: nat)
    requires i < |nodes| && k < |neighbors|
    ensures Share(nodes, i, neighbors[..k + 1]) ==
            Share(nodes, i, neighbors[..k]) +
              if IsLast(nodes, i) && neighbors[k].row.key == Some(nodes[i].id) then [neighbors[k]] else []
  {
    assert neighbors[..k + 1][..k] == neighbors[..k];
  }

  lemma EmptyShares(nodes: seq<Parent>)
    ensures forall i :: 0 <= i < |nodes| ==> Share(nodes, i, []) == []
  {
  }

  lemma SharesSnoc(nodes: seq<Parent>, nodeids: map<int, Parent>, neighbors: seq<Child>, k: nat)
    requires k < |neighbors| && neighbors[k].row.key.Some? && neighbors[k].row.key.value in nodeids
    requires forall id :: id in nodeids ==> nodeids[id].id == id
    requires forall i :: 0 <= i < |nodes| ==>
               nodes[i].id in nodeids && (nodeids[nodes[i].id] == nodes[i] <==> IsLast(nodes, i))
    ensures forall i :: 0 <= i < |nodes| ==>
              Share(nodes, i, neighbors[..k + 1]) ==
              Share(nodes, i, neighbors[..k]) + if nodes[i] == nodeids[neighbors[k].row.key.value] then [neighbors[k]] else []
  {
    hide Share;
    hide IsLast;
    forall i | 0 <= i < |nodes|
      ensures Share(nodes, i, neighbors[..k + 1]) ==
              Share(nodes, i, neighbors[..k]) + if nodes[i] == nodeids[neighbors[k].row.key.value] then [neighbors[k]] else []
    {
      ShareSnoc(nodes, i, neighbors, k);
      var key := neighbors[k].row.key.value;
      if nodes[i] == nodeids[key] {
        assert nodes[i].id == key && IsLast(nodes, i);
      } else {
        assert key == nodes[i].id ==> !IsLast(nodes, i);
      }
    }
  }

  /** In terms of rows: the in-order part of the rows with the parent's id, or nothing for a parent
      that is followed by another one with the same id. */
  lemma {:induction false} ShareIsWithKey(nodes: seq<Parent>, i: nat, neighbors: seq<Child>)
    requires i < |nodes|
    ensures Rows(Share(nodes, i, neighbors)) == if IsLast(nodes, i) then WithKey(Rows(neighbors), nodes[i].id) else []
  {
    if neighbors != [] {
      var last := |neighbors| - 1;
      ShareIsWithKey(nodes, i, neighbors[..last]);
      var rows := Rows(neighbors);
      FilterSnoc(rows, last, (row: ChildRow) => row.key == Some(nodes[i].id));
      assert rows[..last + 1] == rows && rows[..last] == Rows(neighbors[..last]);
    }
  }

  /** The first loop of a load; lists are emptied (`init`), single neighbours are left alone. */
  method IndexParents(nodes: seq<Parent>, init: bool) returns (fks: seq<int>, nodeids: map<int, Parent>)
    requires forall i, j :: 0 <= i < j < |nodes| ==> nodes[i] != nodes[j]
    modifies nodes
    ensures fks == Keys(nodes)
    ensures forall i :: 0 <= i < |nodes| ==> nodes[i].id in nodeids && nodes[i].only == old(nodes[i].only)
    ensures forall i :: 0 <= i < |nodes| ==> nodes[i].children == if init then [] else old(nodes[i].children)
    ensures forall id :: id in nodeids ==> nodeids[id] in nodes && nodeids[id].id == id
    ensures forall i :: 0 <= i < |nodes| ==> (nodeids[nodes[i].id] == nodes[i] <==> IsLast(nodes, i))
  {
    fks, nodeids := [], map[];
    hide Latest;
    hide Owned;
    NoneIsLatest(nodes);
    for k := 0 to |nodes|
      invariant fks == Keys(nodes)[..k]
      invariant forall i :: 0 <= i < |nodes| ==> nodes[i].only == old(nodes[i].only)
      invariant forall i :: 0 <= i < k ==> nodes[i].children == if init then [] else old(nodes[i].children)
      invariant forall i :: k <= i < |nodes| ==> nodes[i].children == old(nodes[i].children)
      invariant Latest(nodeids, nodes, k) && Owned(nodeids, nodes)
    {
      fks := fks + [nodes[k].id];
      LatestSnoc(nodeids, nodes, k);
      OwnedSnoc(nodeids, nodes, k);
      nodeids := nodeids[nodes[k].id := nodes[k]];
      if init {
        nodes[k].children := [];
      }
    }
    AllLatest(nodeids, nodes);
  }

  /** Of the first `k` parents every id is in the map, with the last one that has it. */
  ghost predicate Latest(nodeids: map<int, Parent>, nodes: seq<Parent>, k: nat)
    requires k <= |nodes|
  {
    forall i :: 0 <= i < k ==>
      && nodes[i].id in nodeids
      && (nodeids[nodes[i].id] == nodes[i] <==> forall j :: i < j < k ==> nodes[j].id != nodes[i].id)
  }

  /** What the map holds are parents under their own ids. */
  ghost predicate Owned(nodeids: map<int, Parent>, nodes: seq<Parent>) {
    forall id :: id in nodeids ==> nodeids[id] in nodes && nodeids[id].id == id
  }

  lemma NoneIsLatest(nodes: seq<Parent>)
    ensures Latest(map[], nodes, 0) && Owned(map[], nodes)
  {
  }

  lemma OwnedSnoc(nodeids: map<int, Parent>, nodes: seq<Parent>, k: nat)
    requires k < |nodes| && Owned(nodeids, nodes)
    ensures Owned(nodeids[nodes[k].id := nodes[k]], nodes)
  {
  }

  lemma LatestSnoc(nodeids: map<int, Parent>, nodes: seq<Parent>, k: nat)
    requires forall i, j :: 0 <= i < j < |nodes| ==> nodes[i] != nodes[j]
    requires k < |nodes| && Latest(nodeids, nodes, k)
    ensures Latest(nodeids[nodes[k].id := nodes[k]], nodes, k + 1)
  {
    var more := nodeids[nodes[k].id := nodes[k]];
    forall i | 0 <= i < k + 1
      ensures nodes[i].id in more
      ensures more[nodes[i].id] == nodes[i] <==> forall j :: i < j < k + 1 ==> nodes[j].id != nodes[i].id
    {
      LatestAt(nodeids, nodes, k, i);
    }
  }

  lemma LatestAt(nodeids: map<int, Parent>, nodes: seq<Parent>, k: nat, i: nat)
    requires k < |nodes| && i < k + 1 && Latest(nodeids, nodes, k) && (i < k ==> nodes[i] != nodes[k])
    ensures nodes[i].id in nodeids[nodes[k].id := nodes[k]]
    ensures nodeids[nodes[k].id := nodes[k]][nodes[i].id] == nodes[i] <==>
            forall j :: i < j < k + 1 ==> nodes[j].id != nodes[i].id
  {
    if i < k {
      if nodes[i].id == nodes[k].id {
        assert !(forall j :: i < j < k + 1 ==> nodes[j].id != nodes[i].id);
      } else {
        assert (forall j :: i < j < k + 1 ==> nodes[j].id != nodes[i].id) <==>
               (forall j :: i < j < k ==> nodes[j].id != nodes[i].id);
      }
    }
  }

  lemma AllLatest(nodeids: map<int, Parent>, nodes: seq<Parent>)
    requires Latest(nodeids, nodes, |nodes|) && Owned(nodeids, nodes)
    ensures forall i :: 0 <= i < |nodes| ==> nodes[i].id in nodeids
    ensures forall id :: id in nodeids ==> nodeids[id] in nodes && nodeids[id].id == id
    ensures forall i :: 0 <= i < |nodes| ==> (nodeids[nodes[i].id] == nodes[i] <==> IsLast(nodes, i))
  {
  }

  /** The assignment loop, for any neighbours: it stops at the first one without a known key. */
  method Scatter(nodes: seq<Parent>, nodeids: map<int, Parent>, neighbors: seq<Child>) returns (error: Option<LoadError>)
    requires forall i, j :: 0 <= i < j < |nodes| ==> nodes[i] != nodes[j]
    requires forall i :: 0 <= i < |nodes| ==> nodes[i].children == [] && nodes[i].id in nodeids
    requires forall id :: id in nodeids ==> nodeids[id] in nodes && nodeids[id].id == id
    requires forall i :: 0 <= i < |nodes| ==> (nodeids[nodes[i].id] == nodes[i] <==> IsLast(nodes, i))
    modifies nodes
    ensures error.None? <==>
            forall k :: 0 <= k < |neighbors| ==> neighbors[k].row.key.Some? && neighbors[k].row.key.value in nodeids
    ensures error.None? ==>
              forall i :: 0 <= i < |nodes| ==> nodes[i].children == Share(nodes, i, neighbors)
  {
    hide Share;
    hide IsLast;
    EmptyShares(nodes);
    for k := 0 to |neighbors|
      invariant forall m :: 0 <= m < k ==> neighbors[m].row.key.Some? && neighbors[m].row.key.value in nodeids
      invariant forall i :: 0 <= i < |nodes| ==> nodes[i].children == Share(nodes, i, neighbors[..k])
    {
      var n := neighbors[k];
      if n.row.key.None? {
        return Some(NilKey(n.row.id));
      }
      if n.row.key.value !in nodeids {
        return Some(UnexpectedKey(n.row.key.value, n.row.id));
      }
      var node := nodeids[n.row.key.value];
      SharesSnoc(nodes, nodeids, neighbors, k);
      node.children := node.children + [n];
    }
    assert neighbors[..|neighbors|] == neighbors;
    return None;
  }

  /** Rows that satisfy the KeyIn predicate have a key, and it is one of the list. */
  lemma KeysAreKnown(table: seq<ChildRow>, ps: seq<Predicate>, keys: seq<int>, neighbors: seq<Child>)
    requires ps != [] && ps[|ps| - 1] == KeyIn(keys) && Rows(neighbors) == Selected(table, ps)
    ensures forall k :: 0 <= k < |neighbors| ==> neighbors[k].row.key.Some? && neighbors[k].row.key.value in keys
  {
    forall k | 0 <= k < |neighbors| ensures neighbors[k].row.key.Some? && neighbors[k].row.key.value in keys {
      assert Rows(neighbors)[k] in Selected(table, ps);
      assert AllHold(ps, neighbors[k].row);
      assert Holds(ps[|ps| - 1], neighbors[k].row);
    }
  }

  /** The whole load.  The key errors of the assignment loop cannot happen; the query is left with one
      more predicate than before. */
  method LoadOneToMany(query: ChildQuery, table: seq<ChildRow>, nodes: seq<Parent>)
    returns (error: Option<LoadError>, neighbors: seq<Child>)
    requires forall i, j :: 0 <= i < j < |nodes| ==> nodes[i] != nodes[j]
    modifies query, nodes
    ensures error.None?
    ensures query.predicates == old(query.predicates) + [KeyIn(Keys(nodes))]
    ensures Rows(neighbors) == Selected(table, query.predicates)
    ensures forall i :: 0 <= i < |nodes| ==> nodes[i].children == Share(nodes, i, neighbors)
  {
    var fks, nodeids := IndexParents(nodes, true);
    query.Where(KeyIn(fks));
    neighbors := query.All(table);
    KeysAreKnown(table, query.predicates, fks, neighbors);
    assert forall k :: k in fks ==> k in nodeids;
    error := Scatter(nodes, nodeids, neighbors);
  }

  /** The assignment loop of an edge with at most one neighbour: a later row replaces an earlier one. */
  method ScatterOne(nodes: seq<Parent>, nodeids: map<int, Parent>, neighbors: seq<Child>) returns (error: Option<LoadError>)
    requires forall i, j :: 0 <= i < j < |nodes| ==> nodes[i] != nodes[j]
    requires forall i :: 0 <= i < |nodes| ==> nodes[i].id in nodeids
    requires forall id :: id in nodeids ==> nodeids[id] in nodes && nodeids[id].id == id
    requires forall i :: 0 <= i < |nodes| ==> (nodeids[nodes[i].id] == nodes[i] <==> IsLast(nodes, i))
    modifies nodes
    ensures error.None? <==>
            forall k :: 0 <= k < |neighbors| ==> neighbors[k].row.key.Some? && neighbors[k].row.key.value in nodeids
    ensures error.None? ==>
              forall i :: 0 <= i < |nodes| ==> nodes[i].only == LastOr(Share(nodes, i, neighbors), old(nodes[i].only))
    ensures forall i :: 0 <= i < |nodes| ==> nodes[i].children == old(nodes[i].children)
  {
    hide Share;
    hide IsLast;
    EmptyShares(nodes);
    for k := 0 to |neighbors|
      invariant forall m :: 0 <= m < k ==> neighbors[m].row.key.Some? && neighbors[m].row.key.value in nodeids
      invariant forall i :: 0 <= i < |nodes| ==>
                  && nodes[i].only == LastOr(Share(nodes, i, neighbors[..k]), old(nodes[i].only))
                  && nodes[i].children == old(nodes[i].children)
    {
      var n := neighbors[k];
      if n.row.key.None? {
        return Some(NilKey(n.row.id));
      }
      if n.row.key.value !in nodeids {
        return Some(UnexpectedKey(n.row.key.value, n.row.id));
      }
      var node := nodeids[n.row.key.value];
      SharesSnoc(nodes, nodeids, neighbors, k);
      node.only := n;
    }
    assert neighbors[..|neighbors|] == neighbors;
    return None;
  }

  function LastOr(s: seq<Child>, otherwise: Child?): Child? {
    if s == [] then otherwise else s[|s| - 1]
  }

  /** loadBackupSchedule, loadPruningRule: each profile ends with the last row that refers to it, and
      keeps what it had when there is none; its lists are untouched. */
  method LoadOneToOne(query: ChildQuery, table: seq<ChildRow>, nodes: seq<Parent>)
    returns (error: Option<LoadError>, neighbors: seq<Child>)
    requires forall i, j :: 0 <= i < j < |nodes| ==> nodes[i] != nodes[j]
    modifies query, nodes
    ensures error.None?
    ensures query.predicates == old(query.predicates) + [KeyIn(Keys(nodes))]
    ensures Rows(neighbors) == Selected(table, query.predicates)
    ensures forall i :: 0 <= i < |nodes| ==> nodes[i].only == LastOr(Share(nodes, i, neighbors), old(nodes[i].only))
    ensures forall i :: 0 <= i < |nodes| ==> nodes[i].children == old(nodes[i].children)
  {
    hide Selected;
    hide Share;
    hide LastOr;
    var fks, nodeids := IndexParents(nodes, false);
    query.Where(KeyIn(fks));
    neighbors := query.All(table);
    KeysAreKnown(table, query.predicates, fks, neighbors);
    assert forall k :: k in fks ==> k in nodeids;
    error := ScatterOne(nodes, nodeids, neighbors);
  }

  // ---------------------------------------------------------------- what the parents hold

  /** The rows parent `id` is given, as a function of the query's predicates. */
  function Given(table: seq<ChildRow>, ps: seq<Predicate>, id: int): seq<ChildRow> {
    WithKey(Selected(table, ps), id)
  }

  function LengthSum(table: seq<ChildRow>, ids: seq<int>): nat {
    if ids == [] then 0 else |WithKey(table, ids[0])| + LengthSum(table, ids[1..])
  }

  /** Scattering to parents with distinct ids is a partition: the lists together have as many rows as
      the query returned, so every row is given to one parent and none to two. */
  lemma {:induction false} ScatterIsPartition(rows: seq<ChildRow>, ids: seq<int>)
    requires Distinct(ids) && forall r :: r in rows ==> r.key.Some? && r.key.value in ids
    ensures LengthSum(rows, ids) == |rows|
  {
    if rows == [] {
      NothingToSum(ids);
    } else {
      var r := rows[0];
      ScatterIsPartition(rows[1..], ids);
      OneMore(rows, ids);
      var i :| 0 <= i < |ids| && ids[i] == r.key.value;
      CountOnce(ids, i);
    }
  }

  lemma {:induction false} NothingToSum(ids: seq<int>)
    ensures LengthSum([], ids) == 0
  {
    if ids != [] {
      NothingToSum(ids[1..]);
    }
  }

  function Count(ids: seq<int>, id: int): nat {
    if ids == [] then 0 else (if ids[0] == id then 1 else 0) + Count(ids[1..], id)
  }

  lemma {:induction false} OneMore(rows: seq<ChildRow>, ids: seq<int>)
    requires rows != [] && rows[0].key.Some?
    ensures LengthSum(rows, ids) == LengthSum(rows[1..], ids) + Count(ids, rows[0].key.value)
  {
    if ids != [] {
      OneMore(rows, ids[1..]);
    }
  }

  lemma {:induction false} CountOnce(ids: seq<int>, i: nat)
    requires Distinct(ids) && i < |ids|
    ensures Count(ids, ids[i]) == 1
  {
    if i == 0 {
      CountNone(ids[1..], ids[0]);
    } else {
      CountOnce(ids[1..], i - 1);
    }
  }

  lemma {:induction false} CountNone(ids: seq<int>, id: int)
    requires id !in ids
    ensures Count(ids, id) == 0
  {
    if ids != [] {
      CountNone(ids[1..], id);
    }
  }

  /** For a query not used before, each parent is given exactly its own rows that pass the caller's
      filters, as if they had been looked up for it alone. */
  lemma FreshQueryGivesOwnRows(table: seq<ChildRow>, ps: seq<Predicate>, keys: seq<int>, id: int)
    requires id in keys
    ensures Given(table, ps + [KeyIn(keys)], id) == WithKey(Selected(table, ps), id)
  {
    SelectedFurther(table, ps, keys, id);
  }

  lemma {:induction false} SelectedFurther(table: seq<ChildRow>, ps: seq<Predicate>, keys: seq<int>, id: int)
    ensures WithKey(Selected(table, ps + [KeyIn(keys)]), id) == if id in keys then WithKey(Selected(table, ps), id) else []
  {
    if table != [] {
      SelectedFurther(table[1..], ps, keys, id);
      var r, qs := table[0], ps + [KeyIn(keys)];
      assert forall i :: 0 <= i < |ps| ==> qs[i] == ps[i];
      assert AllHold(qs, r) <==> AllHold(ps, r) && Holds(qs[|ps|], r);
      GivenCons(table, ps, id);
      GivenCons(table, qs, id);
    }
  }

  lemma GivenCons(table: seq<ChildRow>, ps: seq<Predicate>, id: int)
    requires table != []
    ensures WithKey(Selected(table, ps), id) ==
            (if AllHold(ps, table[0]) && table[0].key == Some(id) then [table[0]] else []) + WithKey(Selected(table[1..], ps), id)
  {
    var rest := Selected(table[1..], ps);
    if AllHold(ps, table[0]) {
      assert Selected(table, ps) == [table[0]] + rest;
      assert ([table[0]] + rest)[1..] == rest;
    } else {
      assert Selected(table, ps) == rest;
    }
  }

  /** Loading leaves its predicate in the query it was given, so the same query object serves a second
      load correctly for parent `id` exactly when `id` was among the parents of the first, or has no
      rows to be given. */
  lemma ReusedQuery(table: seq<ChildRow>, ps: seq<Predicate>, first: seq<int>, second: seq<int>, id: int)
    requires id in second
    ensures Given(table, ps + [KeyIn(first)] + [KeyIn(second)], id) == Given(table, ps + [KeyIn(second)], id) <==>
            id in first || WithKey(Selected(table, ps), id) == []
  {
    SelectedFurther(table, ps + [KeyIn(first)], second, id);
    SelectedFurther(table, ps, first, id);
    SelectedFurther(table, ps, second, id);
  }

  /** Two loads with one query object, then one with a clone taken before the first: the clone gives
      the second set of parents their rows, the reused query only those of the first set too. */
  method LoadTwice(query: ChildQuery, table: seq<ChildRow>, nodes: seq<Parent>, later: seq<Parent>, fromClone: seq<Parent>)
    requires forall i, j :: 0 <= i < j < |nodes| ==> nodes[i] != nodes[j]
    requires forall i, j :: 0 <= i < j < |later| ==> later[i] != later[j]
    requires forall i, j :: 0 <= i < j < |fromClone| ==> fromClone[i] != fromClone[j]
    requires forall n :: n in nodes ==> n !in later && n !in fromClone
    requires forall n :: n in later ==> n !in fromClone
    modifies query, nodes, later, fromClone
    ensures forall i :: 0 <= i < |later| && IsLast(later, i) ==>
              Rows(later[i].children) ==
              Given(table, old(query.predicates) + [KeyIn(Keys(nodes))] + [KeyIn(Keys(later))], later[i].id)
    ensures forall i :: 0 <= i < |fromClone| && IsLast(fromClone, i) ==>
              Rows(fromClone[i].children) == Given(table, old(query.predicates) + [KeyIn(Keys(fromClone))], fromClone[i].id)
  {
    var clone := query.Clone();
    var error, found := LoadOneToMany(query, table, nodes);
    error, found := LoadOneToMany(query, table, later);
    forall i | 0 <= i < |later|
      ensures Rows(later[i].children) == if IsLast(later, i) then Given(table, query.predicates, later[i].id) else []
    {
      ShareIsWithKey(later, i, found);
    }
    assert forall i :: 0 <= i < |later| ==> later[i] in later && later[i] !in fromClone;
    error, found := LoadOneToMany(clone, table, fromClone);
    forall i | 0 <= i < |fromClone|
      ensures Rows(fromClone[i].children) ==
              if IsLast(fromClone, i) then Given(table, clone.predicates, fromClone[i].id) else []
    {
      ShareIsWithKey(fromClone, i, found);
    }
  }

  // ---------------------------------------------------------------- many-to-one

  datatype Edge = RepositoryEdge | BackupProfileEdge

  class Target {
    const id: int

    constructor (id: int)
      ensures this.id == id
    {
      this.id := id;
    }
  }

  /** What an edge accessor reports. */
  datatype EdgeResult = Found(target: Target) | NotFound | NotLoaded

  class Archive {
    const id: int
    const archiveRepository: Option<int>
    const backupProfileArchives: Option<int>
    const loadedRepository: bool
    const loadedBackupProfile: bool
    var repository: Target?
    var backupProfile: Target?

    constructor (id: int, archiveRepository: Option<int>, backupProfileArchives: Option<int>,
                 loadedRepository: bool, loadedBackupProfile: bool)
      ensures this.id == id && repository == null && backupProfile == null
      ensures this.archiveRepository == archiveRepository && this.backupProfileArchives == backupProfileArchives
      ensures this.loadedRepository == loadedRepository && this.loadedBackupProfile == loadedBackupProfile
    {
      this.id, this.archiveRepository, this.backupProfileArchives := id, archiveRepository, backupProfileArchives;
      this.loadedRepository, this.loadedBackupProfile := loadedRepository, loadedBackupProfile;
      repository, backupProfile := null, null;
    }

    function Key(e: Edge): Option<int> {
      if e.RepositoryEdge? then archiveRepository else backupProfileArchives
    }

    function Loaded(e: Edge): bool {
      if e.RepositoryEdge? then loadedRepository else loadedBackupProfile
    }

    function EdgeOf(e: Edge): Target?
      reads this
    {
      if e.RepositoryEdge? then repository else backupProfile
    }

    method Assign(e: Edge, t: Target)
      modifies this
      ensures forall d :: EdgeOf(d) == if d == e then t else old(EdgeOf(d))
    {
      if e.RepositoryEdge? {
        repository := t;
      } else {
        backupProfile := t;
      }
    }

    /** RepositoryOrErr and BackupProfileOrErr. */
    function EdgeOrErr(e: Edge): EdgeResult
      reads this
    {
      if EdgeOf(e) != null then Found(EdgeOf(e))
      else if Loaded(e) then NotFound
      else NotLoaded
    }
  }

  /** The last of `targets` with this id. */
  ghost function LastWith(targets: seq<Target>, id: int): (t: Target?)
    ensures t == null <==> forall k :: 0 <= k < |targets| ==> targets[k].id != id
    ensures t != null ==> t in targets && t.id == id
  {
    if targets == [] then null
    else
      var last := |targets| - 1;
      if targets[last].id == id then targets[last] else LastWith(targets[..last], id)
  }

  /** `ids` lists the keys the archives have, each once; `nodeids` groups the archives by key. */
  ghost predicate Grouped(e: Edge, nodes: seq<Archive>, ids: seq<int>, nodeids: map<int, seq<Archive>>) {
    && Distinct(ids)
    && (forall id :: id in nodeids <==> id in ids)
    && (forall n :: n in nodes && n.Key(e).Some? ==> n.Key(e).value in ids && n in nodeids[n.Key(e).value])
    && (forall id :: id in nodeids ==> nodeids[id] != [] && forall n :: n in nodeids[id] ==> n in nodes && n.Key(e) == Some(id))
  }

  method GroupByKey(e: Edge, nodes: seq<Archive>) returns (ids: seq<int>, nodeids: map<int, seq<Archive>>)
    ensures Grouped(e, nodes, ids, nodeids)
  {
    ids, nodeids := [], map[];
    for k := 0 to |nodes|
      invariant Grouped(e, nodes[..k], ids, nodeids)
    {
      assert nodes[..k + 1] == nodes[..k] + [nodes[k]];
      var key := nodes[k].Key(e);
      if key.Some? {
        GroupedSnoc(e, nodes[..k], ids, nodeids, nodes[k]);
        if key.value !in nodeids {
          ids := ids + [key.value];
          nodeids := nodeids[key.value := []];
        }
        nodeids := nodeids[key.value := nodeids[key.value] + [nodes[k]]];
      }
    }
    assert nodes[..|nodes|] == nodes;
  }

  lemma GroupedSnoc(e: Edge, nodes: seq<Archive>, ids: seq<int>, nodeids: map<int, seq<Archive>>, n: Archive)
    requires Grouped(e, nodes, ids, nodeids) && n.Key(e).Some?
    ensures var id := n.Key(e).value;
            var ids' := if id in nodeids then ids else ids + [id];
            var group := if id in nodeids then nodeids[id] else [];
            Grouped(e, nodes + [n], ids', nodeids[id := group + [n]])
  {
  }

  /** The ids of the target rows, in the order the query returns them. */
  method FetchTargets(table: seq<int>, ids: seq<int>) returns (found: seq<Target>)
    ensures forall t :: t in found ==> t.id in ids && t.id in table
    ensures forall id :: id in table && id in ids ==> exists k :: 0 <= k < |found| && found[k].id == id
  {
    found := [];
    for i := 0 to |table|
      invariant forall t :: t in found ==> t.id in ids && t.id in table
      invariant forall id :: id in table[..i] && id in ids ==> exists k :: 0 <= k < |found| && found[k].id == id
    {
      ghost var before := found;
      if table[i] in ids {
        var t := new Target(table[i]);
        found := found + [t];
        assert found[|before|].id == table[i];
      }
      forall id | id in table[..i + 1] && id in ids ensures exists k :: 0 <= k < |found| && found[k].id == id {
        if id in table[..i] {
          var k :| 0 <= k < |before| && before[k].id == id;
          assert found[k].id == id;
        }
      }
    }
    assert table[..|table|] == table;
  }

  method AssignAll(e: Edge, group: seq<Archive>, t: Target)
    modifies group
    ensures forall n :: n in group ==> forall d :: n.EdgeOf(d) == if d == e then t else old(n.EdgeOf(d))
  {
    for i := 0 to |group|
      invariant forall n :: n in group[..i] ==> forall d :: n.EdgeOf(d) == if d == e then t else old(n.EdgeOf(d))
      invariant forall n :: n in group ==> n.EdgeOf(e) == t || n.EdgeOf(e) == old(n.EdgeOf(e))
      invariant forall n :: n in group ==> forall d :: d != e ==> n.EdgeOf(d) == old(n.EdgeOf(d))
    {
      assert group[i] in group && group[..i + 1] == group[..i] + [group[i]];
      group[i].Assign(e, t);
    }
    assert group[..|group|] == group;
  }

  /** What edge `e` of archive `n` shows once `targets` have been assigned, having shown `before`. */
  ghost function Shown(e: Edge, n: Archive, targets: seq<Target>, before: Target?): Target? {
    if n.Key(e).Some? && LastWith(targets, n.Key(e).value) != null then LastWith(targets, n.Key(e).value) else before
  }

  /** loadRepository and loadBackupProfile: every archive ends with the row its key names, if the
      query returned one; several archives with the same key all share it; archives without a key and
      the other edge are left alone. */
  method LoadManyToOne(e: Edge, nodes: seq<Archive>, table: seq<int>)
    returns (error: Option<int>, ghost asked: seq<int>, ghost targets: seq<Target>)
    modifies nodes
    ensures error.None?
    ensures Distinct(asked) && forall id :: id in asked <==> exists n :: n in nodes && n.Key(e) == Some(id)
    ensures forall t :: t in targets ==> t.id in asked && t.id in table
    ensures forall id :: id in table && id in asked ==> LastWith(targets, id) != null
    ensures forall n :: n in nodes ==>
              forall d :: n.EdgeOf(d) == if d == e then Shown(e, n, targets, old(n.EdgeOf(e))) else old(n.EdgeOf(d))
  {
    var ids, nodeids := GroupByKey(e, nodes);
    asked, targets := ids, [];
    forall id ensures id in ids <==> exists n :: n in nodes && n.Key(e) == Some(id) {
      if id in ids {
        var n := nodeids[id][0];
        assert n in nodeids[id];
      }
    }
    if |ids| == 0 {
      return None, asked, [];
    }
    var found := FetchTargets(table, ids);
    targets := found;
    for k := 0 to |found|
      invariant forall n :: n in nodes ==>
                  forall d :: n.EdgeOf(d) == if d == e then Shown(e, n, found[..k], old(n.EdgeOf(e))) else old(n.EdgeOf(d))
    {
      var t := found[k];
      assert t in found;
      var id := t.id;
      if id !in nodeids {
        return Some(id), asked, targets;
      }
      assert found[..k + 1][..k] == found[..k];
      var group := nodeids[id];
      assert forall a :: 0 <= a < |group| ==> group[a] in group && group[a] in nodes;
      AssignAll(e, group, t);
    }
    assert found[..|found|] == found;
    error := None;
  }

  /** One row of the archives' table. */
  datatype ArchiveRow = ArchiveRow(id: int, repository: Option<int>, backupProfile: Option<int>)

  /** sqlAll: the foreign keys are read when an edge asks for them (or the caller's query does), each
      requested edge is loaded, and afterwards every accessor tells the truth about its edge: not
      loaded exactly when it was not asked for, not found exactly when it was and no row matches, and
      otherwise the matching row.  `repositories` and `profiles` are the rows the child queries let
      through, None for an edge that was not asked for. */
  method QueryArchives(rows: seq<ArchiveRow>, withFKs: bool, repositories: Option<seq<int>>, profiles: Option<seq<int>>)
    returns (nodes: seq<Archive>)
    ensures |nodes| == |rows|
    ensures forall i :: 0 <= i < |rows| ==> nodes[i].id == rows[i].id && fresh(nodes[i])
    ensures forall i :: 0 <= i < |rows| ==> TellsTruth(nodes[i], RepositoryEdge, rows[i].repository, repositories)
    ensures forall i :: 0 <= i < |rows| ==> TellsTruth(nodes[i], BackupProfileEdge, rows[i].backupProfile, profiles)
  {
    nodes := ScanArchives(rows, withFKs || repositories.Some? || profiles.Some?, repositories.Some?, profiles.Some?);
    assert forall i :: 0 <= i < |nodes| ==> nodes[i] in nodes;
    LoadAsked(RepositoryEdge, nodes, repositories);
    LoadAsked(BackupProfileEdge, nodes, profiles);
    forall i | 0 <= i < |rows|
      ensures TellsTruth(nodes[i], RepositoryEdge, rows[i].repository, repositories)
      ensures TellsTruth(nodes[i], BackupProfileEdge, rows[i].backupProfile, profiles)
    {
      var n, r := nodes[i], rows[i];
      KeyIsRead(n, RepositoryEdge, n.Key(RepositoryEdge), r.repository, repositories);
      KeyIsRead(n, BackupProfileEdge, n.Key(BackupProfileEdge), r.backupProfile, profiles);
    }
  }

  /** The edge is loaded when it was asked for. */
  method LoadAsked(e: Edge, nodes: seq<Archive>, table: Option<seq<int>>)
    requires forall n :: n in nodes ==> n.EdgeOf(e) == null && n.Loaded(e) == table.Some?
    modifies nodes
    ensures forall n :: n in nodes ==> TellsTruth(n, e, n.Key(e), table)
    ensures forall n, d :: n in nodes && d != e ==> n.EdgeOf(d) == old(n.EdgeOf(d))
  {
    if table.Some? {
      var error, asked, targets := LoadManyToOne(e, nodes, table.value);
      assert forall n :: n in nodes ==> n.EdgeOf(e) == Shown(e, n, targets, null);
    }
  }

  lemma KeyIsRead(n: Archive, e: Edge, key: Option<int>, other: Option<int>, asked: Option<seq<int>>)
    requires TellsTruth(n, e, key, asked) && (asked.Some? ==> key == other) && n.Loaded(e) == asked.Some?
    ensures TellsTruth(n, e, other, asked)
  {
  }

  /** The rows as decoded, with no edge loaded yet. */
  method ScanArchives(rows: seq<ArchiveRow>, readKeys: bool, loadedRepository: bool, loadedBackupProfile: bool)
    returns (nodes: seq<Archive>)
    ensures |nodes| == |rows|
    ensures forall i :: 0 <= i < |rows| ==> Prepared(nodes[i], rows[i], readKeys, loadedRepository, loadedBackupProfile)
    ensures forall i :: 0 <= i < |rows| ==> fresh(nodes[i]) && nodes[i].repository == null && nodes[i].backupProfile == null
    ensures forall i, j :: 0 <= i < j < |rows| ==> nodes[i] != nodes[j]
  {
    nodes := [];
    for i := 0 to |rows|
      invariant |nodes| == i
      invariant forall k :: 0 <= k < i ==> Prepared(nodes[k], rows[k], readKeys, loadedRepository, loadedBackupProfile)
      invariant forall k :: 0 <= k < i ==> fresh(nodes[k]) && nodes[k].repository == null && nodes[k].backupProfile == null
      invariant forall k, l :: 0 <= k < l < i ==> nodes[k] != nodes[l]
    {
      var r := rows[i];
      var n := new Archive(r.id, if readKeys then r.repository else None, if readKeys then r.backupProfile else None,
                           loadedRepository, loadedBackupProfile);
      nodes := nodes + [n];
    }
  }

  predicate Prepared(n: Archive, row: ArchiveRow, readKeys: bool, loadedRepository: bool, loadedBackupProfile: bool) {
    && n.id == row.id
    && n.archiveRepository == (if readKeys then row.repository else None)
    && n.backupProfileArchives == (if readKeys then row.backupProfile else None)
    && n.loadedRepository == loadedRepository && n.loadedBackupProfile == loadedBackupProfile
  }

  predicate TellsTruth(n: Archive, e: Edge, key: Option<int>, asked: Option<seq<int>>)
    reads n
  {
    match n.EdgeOrErr(e)
    case NotLoaded => asked.None?
    case NotFound => asked.Some? && (key.None? || key.value !in asked.value)
    case Found(t) => asked.Some? && key.Some? && t.id == key.value && key.value in asked.value
  }
}
