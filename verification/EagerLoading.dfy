/** Eager loading of many-to-many edges: `loadRepositories` of a backup profile query
    (backend/ent/backupprofile_query.go) and its inverse `loadBackupProfiles` of a repository query
    (backend/ent/repository_query.go), which are the same code over the two directions of one join
    table.  One query returns a row per link; the rows are scattered back onto the parents. */
module EagerLoading {
  import opened Prelude
  import opened RowCodec

  /** A neighbour as decoded: the entity type differs between the two directions. */
  class Neighbor<T> {
    const id: int
    const entity: T

    constructor (id: int, entity: T)
      ensures this.id == id && this.entity == entity
    {
      this.id, this.entity := id, entity;
    }
  }

  class Parent<T> {
    const id: int
    var neighbors: seq<Neighbor<T>>

    constructor (id: int)
      ensures this.id == id
    {
      this.id, neighbors := id, [];
    }
  }

  /** A scanned row: the parent's id, then what the query of the neighbours alone would have scanned,
      which starts with the neighbour's id. */
  type Row = r: seq<Scanned> | |r| >= 2 && r[0].NullInt? && r[1].NullInt? witness [NullInt(None), NullInt(None)]

  function OutId(row: Row): int {
    GetOr(row[0].number, 0)
  }

  function InId(row: Row): int {
    GetOr(row[1].number, 0)
  }

  // ---------------------------------------------------------------- specification

  /** The rows link parent `o` to neighbour `n`. */
  ghost predicate Links(rows: seq<Row>, o: int, n: int) {
    exists k :: 0 <= k < |rows| && OutId(rows[k]) == o && InId(rows[k]) == n
  }

  /** The neighbours' ids in the order in which they first occur. */
  function FirstIds(rows: seq<Row>): (ids: seq<int>)
    ensures forall n :: n in ids <==> exists k :: 0 <= k < |rows| && InId(rows[k]) == n
    ensures forall i, j :: 0 <= i < j < |ids| ==> ids[i] != ids[j]
  {
    if rows == [] then []
    else
      var last := |rows| - 1;
      var before := FirstIds(rows[..last]);
      assert rows == rows[..last] + [rows[last]];
      if InId(rows[last]) in before then before else before + [InId(rows[last])]
  }

  /** The elements of `items` whose id is linked, in order. */
  ghost function Linked<A>(items: seq<A>, ids: seq<int>, rows: seq<Row>, o: int): seq<A>
    requires |items| == |ids|
  {
    if items == [] then []
    else
      var last := |items| - 1;
      Linked(items[..last], ids[..last], rows, o) + (if Links(rows, o, ids[last]) then [items[last]] else [])
  }

  /** No later parent has the same id. */
  ghost predicate IsLast<T>(nodes: seq<Parent<T>>, i: nat)
    requires i < |nodes|
  {
    forall j :: i < j < |nodes| ==> nodes[j].id != nodes[i].id
  }

  /** What parent `i` ends up with. */
  ghost function Share<T>(nodes: seq<Parent<T>>, i: nat, children: seq<Neighbor<T>>, ids: seq<int>, rows: seq<Row>): seq<Neighbor<T>>
    requires i < |nodes| && |children| == |ids|
  {
    if IsLast(nodes, i) then Linked(children, ids, rows, nodes[i].id) else []
  }

  // ---------------------------------------------------------------- the load

  method IndexParents<T>(nodes: seq<Parent<T>>) returns (byID: map<int, Parent<T>>)
    requires forall i, j :: 0 <= i < j < |nodes| ==> nodes[i] != nodes[j]
    modifies nodes
    ensures forall i :: 0 <= i < |nodes| ==> nodes[i].neighbors == [] && nodes[i].id in byID
    ensures forall id :: id in byID ==> byID[id] in nodes && byID[id].id == id
    ensures forall i :: 0 <= i < |nodes| && IsLast(nodes, i) ==> byID[nodes[i].id] == nodes[i]
    ensures forall i :: 0 <= i < |nodes| && !IsLast(nodes, i) ==> byID[nodes[i].id] != nodes[i]
  {
    byID := map[];
    for k := 0 to |nodes|
      invariant forall i :: 0 <= i < k ==> nodes[i].neighbors == [] && nodes[i].id in byID
      invariant forall id :: id in byID ==> byID[id] in nodes && byID[id].id == id
      invariant forall i :: 0 <= i < k ==>
                  (byID[nodes[i].id] == nodes[i] <==> forall j :: i < j < k ==> nodes[j].id != nodes[i].id)
    {
      byID := byID[nodes[k].id := nodes[k]];
      nodes[k].neighbors := [];
    }
  }

  /** `nids` lists, for every neighbour id seen, the parents its rows link it to, each once. */
  ghost predicate Collected<T>(nids: map<int, seq<Parent<T>>>, nodes: seq<Parent<T>>, ids: seq<int>, rows: seq<Row>) {
    && (forall n :: n in nids <==> n in ids)
    && (forall n :: n in nids ==> CollectedAt(nids[n], nodes, rows, n))
  }

  ghost predicate CollectedAt<T>(parents: seq<Parent<T>>, nodes: seq<Parent<T>>, rows: seq<Row>, n: int) {
    && (forall a, b :: 0 <= a < b < |parents| ==> parents[a] != parents[b])
    && (forall p :: p in parents ==> p in nodes)
    && (forall i :: 0 <= i < |nodes| ==> (nodes[i] in parents <==> IsLast(nodes, i) && Links(rows, nodes[i].id, n)))
  }

  lemma LinksSnoc(rows: seq<Row>, k: nat, o: int, n: int)
    requires k < |rows|
    ensures Links(rows[..k + 1], o, n) <==> Links(rows[..k], o, n) || (OutId(rows[k]) == o && InId(rows[k]) == n)
  {
    assert rows[..k + 1] == rows[..k] + [rows[k]];
    if Links(rows[..k], o, n) {
      var m :| 0 <= m < k && OutId(rows[..k][m]) == o && InId(rows[..k][m]) == n;
      assert OutId(rows[..k + 1][m]) == o && InId(rows[..k + 1][m]) == n;
    }
    assert rows[..k + 1][k] == rows[k];
  }

  lemma FirstIdsSnoc(rows: seq<Row>, k: nat)
    requires k < |rows|
    ensures var before := FirstIds(rows[..k]);
            FirstIds(rows[..k + 1]) == if InId(rows[k]) in before then before else before + [InId(rows[k])]
  {
    assert rows[..k + 1][..k] == rows[..k];
  }

  /** One more row: its neighbour's entry gains the row's parent, nothing else changes. */
  lemma CollectedSnoc<T>(nids: map<int, seq<Parent<T>>>, nodes: seq<Parent<T>>, rows: seq<Row>, k: nat, owner: nat,
                         nids': map<int, seq<Parent<T>>>)
    requires forall i, j :: 0 <= i < j < |nodes| ==> nodes[i] != nodes[j]
    requires k < |rows| && Collected(nids, nodes, FirstIds(rows[..k]), rows[..k])
    requires owner < |nodes| && IsLast(nodes, owner) && nodes[owner].id == OutId(rows[k])
    requires var n, p := InId(rows[k]), nodes[owner];
             nids' == (if n !in nids then nids[n := [p]]
                       else if p in nids[n] then nids
                       else nids[n := nids[n] + [p]])
    ensures Collected(nids', nodes, FirstIds(rows[..k + 1]), rows[..k + 1])
  {
    hide Links;
    hide FirstIds;
    hide IsLast;
    hide CollectedAt;
    var n, p := InId(rows[k]), nodes[owner];
    FirstIdsSnoc(rows, k);
    forall m | m in nids' ensures CollectedAt(nids'[m], nodes, rows[..k + 1], m) {
      if m !in nids {
        CollectedNone(nodes, rows[..k], m);
      }
      CollectedAtSnoc(if m in nids then nids[m] else [], nodes, rows, k, owner, m, nids'[m]);
    }
  }

  /** A neighbour not seen yet has no parents. */
  lemma CollectedNone<T>(nodes: seq<Parent<T>>, rows: seq<Row>, m: int)
    requires m !in FirstIds(rows)
    ensures CollectedAt([], nodes, rows, m)
  {
  }

  lemma CollectedAtSnoc<T>(parents: seq<Parent<T>>, nodes: seq<Parent<T>>, rows: seq<Row>, k: nat, owner: nat, m: int,
                           parents': seq<Parent<T>>)
    requires forall i, j :: 0 <= i < j < |nodes| ==> nodes[i] != nodes[j]
    requires k < |rows| && CollectedAt(parents, nodes, rows[..k], m)
    requires owner < |nodes| && IsLast(nodes, owner) && nodes[owner].id == OutId(rows[k])
    requires parents' == if m == InId(rows[k]) && nodes[owner] !in parents then parents + [nodes[owner]] else parents
    ensures CollectedAt(parents', nodes, rows[..k + 1], m)
  {
    hide Links;
    forall i | 0 <= i < |nodes|
      ensures nodes[i] in parents' <==> IsLast(nodes, i) && Links(rows[..k + 1], nodes[i].id, m)
    {
      LinksSnoc(rows, k, nodes[i].id, m);
    }
  }

  /** The wrapped Assign of the joined query: the first row of a neighbour is decoded into an object,
      every row of it adds its parent. */
  method CollectRows<T>(byID: map<int, Parent<T>>, ghost nodes: seq<Parent<T>>, rows: seq<Row>,
                        decode: seq<Scanned> -> Option<T>, idOf: T -> int)
    returns (ok: bool, nids: map<int, seq<Parent<T>>>, children: seq<Neighbor<T>>)
    requires forall i, j :: 0 <= i < j < |nodes| ==> nodes[i] != nodes[j]
    requires forall i :: 0 <= i < |nodes| ==> nodes[i].id in byID && (byID[nodes[i].id] == nodes[i] <==> IsLast(nodes, i))
    requires forall id :: id in byID ==> byID[id] in nodes && byID[id].id == id
    requires forall k :: 0 <= k < |rows| ==> OutId(rows[k]) in byID
    requires forall k :: 0 <= k < |rows| && decode(rows[k][1..]).Some? ==> idOf(decode(rows[k][1..]).value) == InId(rows[k])
    ensures ok ==> Collected(nids, nodes, FirstIds(rows), rows) && IsTheRows(children, rows, decode)
    ensures !ok ==> FirstRowFails(rows, decode)
  {
    ok, nids, children := true, map[], [];
    for k := 0 to |rows|
      invariant Collected(nids, nodes, FirstIds(rows[..k]), rows[..k])
      invariant IsTheRows(children, rows[..k], decode)
    {
      var outValue, inValue := OutId(rows[k]), InId(rows[k]);
      ghost var owner :| 0 <= owner < |nodes| && nodes[owner] == byID[outValue];
      ghost var before := nids;
      assert inValue in nids <==> inValue in FirstIds(rows[..k]);
      hide Collected;
      hide IsTheRows;
      if inValue !in nids {
        nids := nids[inValue := [byID[outValue]]];
        var entity := decode(rows[k][1..]);
        if entity.None? {
          NewFails(rows, k, decode);
          return false, nids, children;
        }
        var child := new Neighbor(idOf(entity.value), entity.value);
        RowsNew(children, rows, k, decode, child);
        children := children + [child];
      } else {
        if byID[outValue] !in nids[inValue] {
          nids := nids[inValue := nids[inValue] + [byID[outValue]]];
        }
        RowsSame(children, rows, k, decode);
      }
      CollectedSnoc(before, nodes, rows, k, owner, nids);
    }
    assert rows[..|rows|] == rows;
  }

  /** A neighbour's first row cannot be decoded; its later rows are never decoded. */
  ghost predicate FirstRowFails<T>(rows: seq<Row>, decode: seq<Scanned> -> Option<T>) {
    exists k :: 0 <= k < |rows| && decode(rows[k][1..]).None? && forall m :: 0 <= m < k ==> InId(rows[m]) != InId(rows[k])
  }

  lemma NewFails<T>(rows: seq<Row>, k: nat, decode: seq<Scanned> -> Option<T>)
    requires k < |rows| && InId(rows[k]) !in FirstIds(rows[..k]) && decode(rows[k][1..]).None?
    ensures FirstRowFails(rows, decode)
  {
    forall m | 0 <= m < k ensures InId(rows[m]) != InId(rows[k]) {
      assert InId(rows[..k][m]) in FirstIds(rows[..k]);
    }
  }

  lemma RowsDoNotFail<T>(children: seq<Neighbor<T>>, rows: seq<Row>, decode: seq<Scanned> -> Option<T>)
    requires IsTheRows(children, rows, decode)
    ensures !FirstRowFails(rows, decode)
  {
    forall k | 0 <= k < |rows| && forall m :: 0 <= m < k ==> InId(rows[m]) != InId(rows[k])
      ensures decode(rows[k][1..]).Some?
    {
      assert InId(rows[k]) in FirstIds(rows);
      var i :| 0 <= i < |children| && FirstIds(rows)[i] == InId(rows[k]);
      assert FromFirstRow(children[i], rows, decode);
      var f :| 0 <= f < |rows| && InId(rows[f]) == children[i].id && decode(rows[f][1..]) == Some(children[i].entity)
               && forall m :: 0 <= m < f ==> InId(rows[m]) != children[i].id;
      assert f == k;
    }
  }

  /** One object per neighbour, in first-row order, decoded from its first row. */
  ghost predicate IsTheRows<T>(children: seq<Neighbor<T>>, rows: seq<Row>, decode: seq<Scanned> -> Option<T>) {
    && |children| == |FirstIds(rows)|
    && forall i :: 0 <= i < |children| ==>
         children[i].id == FirstIds(rows)[i] && FromFirstRow(children[i], rows, decode)
  }

  ghost predicate FromFirstRow<T>(child: Neighbor<T>, rows: seq<Row>, decode: seq<Scanned> -> Option<T>) {
    exists k :: 0 <= k < |rows| && InId(rows[k]) == child.id && decode(rows[k][1..]) == Some(child.entity)
                && forall m :: 0 <= m < k ==> InId(rows[m]) != child.id
  }

  lemma StillFirst<T>(child: Neighbor<T>, rows: seq<Row>, k: nat, decode: seq<Scanned> -> Option<T>)
    requires k < |rows| && FromFirstRow(child, rows[..k], decode)
    ensures FromFirstRow(child, rows[..k + 1], decode)
  {
    var m :| 0 <= m < k && InId(rows[..k][m]) == child.id && decode(rows[..k][m][1..]) == Some(child.entity)
             && forall l :: 0 <= l < m ==> InId(rows[..k][l]) != child.id;
    assert forall l :: 0 <= l <= m ==> rows[..k + 1][l] == rows[..k][l];
  }

  lemma RowsSame<T>(children: seq<Neighbor<T>>, rows: seq<Row>, k: nat, decode: seq<Scanned> -> Option<T>)
    requires k < |rows| && IsTheRows(children, rows[..k], decode) && InId(rows[k]) in FirstIds(rows[..k])
    ensures IsTheRows(children, rows[..k + 1], decode)
  {
    FirstIdsSnoc(rows, k);
    forall i | 0 <= i < |children| ensures FromFirstRow(children[i], rows[..k + 1], decode) {
      StillFirst(children[i], rows, k, decode);
    }
  }

  lemma NewIsFirst<T>(rows: seq<Row>, k: nat, decode: seq<Scanned> -> Option<T>, c: Neighbor<T>)
    requires k < |rows| && InId(rows[k]) !in FirstIds(rows[..k])
    requires c.id == InId(rows[k]) && decode(rows[k][1..]) == Some(c.entity)
    ensures FromFirstRow(c, rows[..k + 1], decode)
  {
    forall m | 0 <= m < k ensures InId(rows[m]) != c.id {
      assert InId(rows[..k][m]) in FirstIds(rows[..k]);
    }
    assert forall m :: 0 <= m <= k ==> rows[..k + 1][m] == rows[m];
  }

  lemma RowsNew<T>(children: seq<Neighbor<T>>, rows: seq<Row>, k: nat, decode: seq<Scanned> -> Option<T>, c: Neighbor<T>)
    requires k < |rows| && IsTheRows(children, rows[..k], decode) && InId(rows[k]) !in FirstIds(rows[..k])
    requires c.id == InId(rows[k]) && decode(rows[k][1..]) == Some(c.entity)
    ensures IsTheRows(children + [c], rows[..k + 1], decode)
  {
    hide FromFirstRow;
    hide FirstIds;
    hide InId;
    FirstIdsSnoc(rows, k);
    forall i | 0 <= i < |children| ensures FromFirstRow(children[i], rows[..k + 1], decode) {
      StillFirst(children[i], rows, k, decode);
    }
    NewIsFirst(rows, k, decode, c);
  }

  /** Ranges over the parents of one neighbour in whatever order the language runtime picks. */
  method AttachOne<T>(child: Neighbor<T>, parents: seq<Parent<T>>)
    requires forall a, b :: 0 <= a < b < |parents| ==> parents[a] != parents[b]
    modifies parents
    ensures forall p :: p in parents ==> p.neighbors == old(p.neighbors) + [child]
  {
    var remaining := parents;
    while remaining != []
      invariant forall a, b :: 0 <= a < b < |remaining| ==> remaining[a] != remaining[b]
      invariant forall p :: p in remaining ==> p in parents && p.neighbors == old(p.neighbors)
      invariant forall p :: p in parents && p !in remaining ==> p.neighbors == old(p.neighbors) + [child]
      decreases |remaining|
    {
      var i :| 0 <= i < |remaining|;
      var p := remaining[i];
      assert p in remaining;
      WithoutFromDistinct(remaining, i);
      p.neighbors := p.neighbors + [child];
      remaining := Without(remaining, i);
    }
  }

  /** The parents as they should be once the first `k` neighbours have been attached. */
  ghost predicate Attached<T>(nodes: seq<Parent<T>>, children: seq<Neighbor<T>>, ids: seq<int>, rows: seq<Row>, k: nat)
    requires k <= |children| == |ids|
    reads nodes
  {
    forall i :: 0 <= i < |nodes| ==> nodes[i].neighbors == Share(nodes, i, children[..k], ids[..k], rows)
  }

  method Attach<T>(nodes: seq<Parent<T>>, children: seq<Neighbor<T>>, nids: map<int, seq<Parent<T>>>, ghost rows: seq<Row>)
    returns (ok: bool)
    requires forall i :: 0 <= i < |nodes| ==> nodes[i].neighbors == []
    requires Collected(nids, nodes, FirstIds(rows), rows)
    requires |children| == |FirstIds(rows)| && forall i :: 0 <= i < |children| ==> children[i].id == FirstIds(rows)[i]
    modifies nodes
    ensures ok && Attached(nodes, children, FirstIds(rows), rows, |children|)
  {
    hide Share;
    ghost var ids := FirstIds(rows);
    NothingShared(nodes, children, rows);
    for k := 0 to |children|
      invariant Attached(nodes, children, ids, rows, k)
    {
      if children[k].id !in nids {
        return false;
      }
      var parents := nids[children[k].id];
      assert CollectedAt(parents, nodes, rows, children[k].id);
      assert forall a :: 0 <= a < |parents| ==> parents[a] in parents && parents[a] in nodes;
      AttachOne(children[k], parents);
      SharesSnoc(nodes, nids, children, rows, k);
    }
    return true;
  }

  lemma NothingShared<T>(nodes: seq<Parent<T>>, children: seq<Neighbor<T>>, rows: seq<Row>)
    requires |children| == |FirstIds(rows)|
    ensures forall i :: 0 <= i < |nodes| ==> Share(nodes, i, children[..0], FirstIds(rows)[..0], rows) == []
  {
  }

  /** One more neighbour: it goes to the parents it was collected for. */
  lemma SharesSnoc<T>(nodes: seq<Parent<T>>, nids: map<int, seq<Parent<T>>>, children: seq<Neighbor<T>>, rows: seq<Row>, k: nat)
    requires Collected(nids, nodes, FirstIds(rows), rows)
    requires k < |children| == |FirstIds(rows)|
    ensures var ids := FirstIds(rows);
            && ids[k] in nids
            && forall i :: 0 <= i < |nodes| ==>
                 Share(nodes, i, children[..k + 1], ids[..k + 1], rows) ==
                 Share(nodes, i, children[..k], ids[..k], rows) + if nodes[i] in nids[ids[k]] then [children[k]] else []
  {
    var ids := FirstIds(rows);
    assert ids[k] in ids;
    assert CollectedAt(nids[ids[k]], nodes, rows, ids[k]);
    hide Share;
    hide FirstIds;
    forall i | 0 <= i < |nodes|
      ensures Share(nodes, i, children[..k + 1], ids[..k + 1], rows) ==
              Share(nodes, i, children[..k], ids[..k], rows) + if nodes[i] in nids[ids[k]] then [children[k]] else []
    {
      ShareSnoc(nodes, i, children, ids, rows, k);
    }
  }

  lemma ShareSnoc<T>(nodes: seq<Parent<T>>, i: nat, children: seq<Neighbor<T>>, ids: seq<int>, rows: seq<Row>, k: nat)
    requires i < |nodes| && k < |children| == |ids|
    ensures Share(nodes, i, children[..k + 1], ids[..k + 1], rows) ==
            Share(nodes, i, children[..k], ids[..k], rows) +
              if IsLast(nodes, i) && Links(rows, nodes[i].id, ids[k]) then [children[k]] else []
  {
    assert children[..k + 1][..k] == children[..k] && ids[..k + 1][..k] == ids[..k];
  }

  ghost predicate HasParent<T>(nodes: seq<Parent<T>>, id: int) {
    exists i :: 0 <= i < |nodes| && nodes[i].id == id
  }

  /** The whole load.  Whatever rows come back in whatever order, and whatever order the maps are
      ranged over: one object per neighbour, in first-row order, and every parent holds exactly the
      objects its rows link it to, in that order; of several parents with one id, the last. */
  method LoadManyToMany<T>(nodes: seq<Parent<T>>, rows: seq<Row>, decode: seq<Scanned> -> Option<T>, idOf: T -> int)
    returns (ok: bool, children: seq<Neighbor<T>>)
    requires forall i, j :: 0 <= i < j < |nodes| ==> nodes[i] != nodes[j]
    requires forall k :: 0 <= k < |rows| ==> HasParent(nodes, OutId(rows[k]))
    requires forall k :: 0 <= k < |rows| && decode(rows[k][1..]).Some? ==> idOf(decode(rows[k][1..]).value) == InId(rows[k])
    modifies nodes
    ensures ok <==> !FirstRowFails(rows, decode)
    ensures ok ==> IsTheRows(children, rows, decode)
    ensures ok ==> forall i :: 0 <= i < |nodes| ==> nodes[i].neighbors == Share(nodes, i, children, FirstIds(rows), rows)
  {
    var byID := IndexParents(nodes);
    var nids;
    ok, nids, children := CollectRows(byID, nodes, rows, decode, idOf);
    if ok {
      RowsDoNotFail(children, rows, decode);
      ok := Attach(nodes, children, nids, rows);
      assert children[..|children|] == children && FirstIds(rows)[..|children|] == FirstIds(rows);
    }
  }

  // ---------------------------------------------------------------- what the parents hold

  /** The neighbours' ids of the list loaded for parent `o`. */
  ghost function LoadedIds(rows: seq<Row>, o: int): seq<int> {
    Linked(FirstIds(rows), FirstIds(rows), rows, o)
  }

  lemma {:induction false} LinkedPicks<T>(children: seq<Neighbor<T>>, ids: seq<int>, rows: seq<Row>, o: int)
    requires |children| == |ids| && forall i :: 0 <= i < |ids| ==> children[i].id == ids[i]
    ensures var l, n := Linked(children, ids, rows, o), Linked(ids, ids, rows, o);
            |l| == |n| && forall k :: 0 <= k < |l| ==> l[k].id == n[k] && l[k] in children
  {
    if children != [] {
      var last := |ids| - 1;
      LinkedPicks(children[..last], ids[..last], rows, o);
    }
  }

  /** `x` stands before `y` in `ids`. */
  ghost predicate Before(ids: seq<int>, x: int, y: int) {
    exists i, j :: 0 <= i < j < |ids| && ids[i] == x && ids[j] == y
  }

  /** The list is the linked part of `ids`, in the same order. */
  lemma {:induction false} LinkedIsFilter(ids: seq<int>, rows: seq<Row>, o: int)
    ensures var l := Linked(ids, ids, rows, o);
            && (forall n :: n in l <==> n in ids && Links(rows, o, n))
            && (forall a, b :: 0 <= a < b < |l| ==> Before(ids, l[a], l[b]))
  {
    if ids != [] {
      var last := |ids| - 1;
      var front := ids[..last];
      LinkedIsFilter(front, rows, o);
      assert ids == front + [ids[last]];
      var l, m := Linked(ids, ids, rows, o), Linked(front, front, rows, o);
      assert l == m + if Links(rows, o, ids[last]) then [ids[last]] else [];
      hide Linked;
      hide Links;
      assert forall n :: n in l <==> n in m || (n == ids[last] && Links(rows, o, n));
      forall a, b | 0 <= a < b < |l| ensures Before(ids, l[a], l[b]) {
        if b < |m| {
          var i, j :| 0 <= i < j < |front| && front[i] == m[a] && front[j] == m[b];
          assert ids[i] == l[a] && ids[j] == l[b];
        } else {
          assert m[a] in m;
          var i :| 0 <= i < |front| && front[i] == m[a];
          assert ids[i] == l[a] && ids[last] == l[b];
        }
      }
    }
  }

  /** The tables behind the load: the join table, and the neighbours the child query's own predicate
      lets through. */
  datatype Db = Db(links: set<(int, int)>, kept: set<int>)

  /** `rows` is an answer of the joined query for these parents, in any order, repetitions allowed. */
  ghost predicate Answers(db: Db, parents: set<int>, rows: seq<Row>) {
    forall o, n :: Links(rows, o, n) <==> o in parents && (o, n) in db.links && n in db.kept
  }

  /** There are rows for every set of links. */
  lemma {:induction false} RowsFor(links: set<(int, int)>) returns (rows: seq<Row>)
    ensures forall o, n :: Links(rows, o, n) <==> (o, n) in links
    decreases links
  {
    rows := [];
    if l :| l in links {
      var before := RowsFor(links - {l});
      var row: Row := [NullInt(Some(l.0)), NullInt(Some(l.1))];
      rows := before + [row];
      forall o, n ensures Links(rows, o, n) <==> (o, n) in links {
        LinksSnoc(rows, |before|, o, n);
        assert rows[..|before|] == before && rows[..|before| + 1] == rows;
        assert (o, n) in links <==> (o, n) in links - {l} || (o, n) == l;
      }
    }
  }

  /** Every load has an answer. */
  lemma AnswersExist(db: Db, parents: set<int>) returns (rows: seq<Row>)
    ensures Answers(db, parents, rows)
  {
    var links := set l | l in db.links && l.0 in parents && l.1 in db.kept;
    rows := RowsFor(links);
    forall o, n ensures Links(rows, o, n) <==> o in parents && (o, n) in db.links && n in db.kept {
      assert (o, n) in links <==> (o, n) in db.links && o in parents && n in db.kept;
    }
  }

  /** Eager loading agrees with looking the neighbours of each parent up on their own: whatever order
      the rows come in, the list of parent `o` is the kept neighbours linked to it, each exactly once. */
  lemma LoadIsLookup(db: Db, parents: set<int>, rows: seq<Row>, o: int)
    requires Answers(db, parents, rows) && o in parents
    ensures forall n :: n in LoadedIds(rows, o) <==> (o, n) in db.links && n in db.kept
    ensures Distinct(LoadedIds(rows, o))
  {
    var ids, l := FirstIds(rows), LoadedIds(rows, o);
    LinkedIsFilter(ids, rows, o);
    forall n | Links(rows, o, n) ensures n in ids {
    }
    forall a, b | 0 <= a < b < |l| ensures l[a] != l[b] {
      assert Before(ids, l[a], l[b]);
    }
  }

  /** Where the child query orders its rows by `key`, every parent's list is in that order. */
  lemma LoadKeepsOrder(rows: seq<Row>, o: int, key: int -> int, a: nat, b: nat)
    requires forall i, j :: 0 <= i < j < |rows| ==> key(InId(rows[i])) <= key(InId(rows[j]))
    requires a < b < |LoadedIds(rows, o)|
    ensures key(LoadedIds(rows, o)[a]) <= key(LoadedIds(rows, o)[b])
  {
    var ids, l := FirstIds(rows), LoadedIds(rows, o);
    LinkedIsFilter(ids, rows, o);
    assert Before(ids, l[a], l[b]);
    var i, j :| 0 <= i < j < |ids| && ids[i] == l[a] && ids[j] == l[b];
    FirstIdsKeepOrder(rows, key, i, j);
  }

  lemma {:induction false} FirstIdsKeepOrder(rows: seq<Row>, key: int -> int, i: nat, j: nat)
    requires forall i, j :: 0 <= i < j < |rows| ==> key(InId(rows[i])) <= key(InId(rows[j]))
    requires i < j < |FirstIds(rows)|
    ensures key(FirstIds(rows)[i]) <= key(FirstIds(rows)[j])
    decreases |rows|
  {
    var last := |rows| - 1;
    var before := FirstIds(rows[..last]);
    if j < |before| {
      FirstIdsKeepOrder(rows[..last], key, i, j);
    } else {
      assert before[i] in before;
      var k :| 0 <= k < last && InId(rows[..last][k]) == before[i];
      assert rows[..last][k] == rows[k];
    }
  }

  /** The two loads over one join table are each other's inverse: loading the neighbours of all
      parents and the parents of all neighbours, each side finds exactly the links of the other. */
  lemma LoadsAreInverse(links: set<(int, int)>, profiles: set<int>, repositories: set<int>,
                        forth: seq<Row>, back: seq<Row>, p: int, r: int)
    requires Answers(Db(links, repositories), profiles, forth)
    requires Answers(Db(set l | l in links :: (l.1, l.0), profiles), repositories, back)
    requires p in profiles && r in repositories
    ensures r in LoadedIds(forth, p) <==> p in LoadedIds(back, r)
  {
    var flipped := set l | l in links :: (l.1, l.0);
    LoadIsLookup(Db(links, repositories), profiles, forth, p);
    LoadIsLookup(Db(flipped, profiles), repositories, back, r);
    assert (p, r) in links ==> (r, p) in flipped;
    if (r, p) in flipped {
      var l :| l in links && (l.1, l.0) == (r, p);
      assert l == (p, r);
    }
  }

  /** Parents that share a neighbour hold the same object. */
  lemma NeighborsAreShared<T>(nodes: seq<Parent<T>>, children: seq<Neighbor<T>>, rows: seq<Row>,
                              decode: seq<Scanned> -> Option<T>, i: nat, k: nat, a: nat, b: nat)
    requires i < |nodes| && k < |nodes| && IsTheRows(children, rows, decode)
    requires a < |Share(nodes, i, children, FirstIds(rows), rows)|
    requires b < |Share(nodes, k, children, FirstIds(rows), rows)|
    ensures var ids := FirstIds(rows);
            var x, y := Share(nodes, i, children, ids, rows)[a], Share(nodes, k, children, ids, rows)[b];
            x.id == y.id <==> x == y
  {
    var ids := FirstIds(rows);
    LinkedPicks(children, ids, rows, nodes[i].id);
    LinkedPicks(children, ids, rows, nodes[k].id);
    var x, y := Share(nodes, i, children, ids, rows)[a], Share(nodes, k, children, ids, rows)[b];
    var m :| 0 <= m < |children| && children[m] == x;
    var n :| 0 <= n < |children| && children[n] == y;
    assert m != n ==> ids[m] != ids[n];
  }

  // ---------------------------------------------------------------- the joined query

  /** How the inner Assign decodes the columns the neighbour query selected. */
  function DecodeProfile(j: Json, columns: seq<Column>, values: seq<Scanned>): Option<Profile> {
    if |values| < |columns| then None
    else
      var s := Assigned(j, ZERO, columns, values);
      if s.Next? then Some(s.profile) else None
  }

  /** A row of the join as the database holds it: the parent's column, then the neighbour's. */
  datatype JoinRow = JoinRow(parent: int, cells: Column -> Cell)

  /** `scanned` is what the scanners of the joined query make of `joined`. */
  ghost predicate ScannedJoin(columns: seq<Column>, joined: seq<JoinRow>, scanned: seq<Row>) {
    && |scanned| == |joined|
    && forall k :: 0 <= k < |joined| ==> ScannedAt(columns, joined[k], scanned[k])
  }

  ghost predicate ScannedAt(columns: seq<Column>, joined: JoinRow, scanned: Row) {
    scanned[0] == NullInt(Some(joined.parent)) && ScannedRow(columns, joined.cells, scanned[1..])
  }

  function IdIn(cells: Column -> Cell): int {
    if cells(Id).IntCell? then cells(Id).i else 0
  }

  predicate AllReadable(j: Json, columns: seq<Column>, cells: Column -> Cell) {
    forall c <- columns :: Readable(j, c, cells(c))
  }

  /** Whatever fields are selected, the positions by which a scanned row is taken apart are right: its
      first value is the parent, its second the neighbour's id, and the rest decodes to a profile that
      shows the row and has that id. */
  lemma JoinedRowIsAligned(j: Json, fields: seq<Column>, joined: JoinRow, scanned: Row)
    requires ScannedAt(SelectedColumns(fields), joined, scanned)
    ensures var columns := SelectedColumns(fields);
            var decoded := DecodeProfile(j, columns, scanned[1..]);
            && OutId(scanned) == joined.parent && InId(scanned) == IdIn(joined.cells)
            && (decoded.Some? <==> AllReadable(j, columns, joined.cells))
            && (decoded.Some? ==>
                  decoded.value.id == InId(scanned) && ShowsRow(j, ZERO, decoded.value, columns, joined.cells))
  {
    var columns := SelectedColumns(fields);
    IdComesFirst(fields);
    hide SelectedColumns;
    assert ScanInto(KindOf(columns[0]), joined.cells(columns[0])) == Some(scanned[1..][0]);
    DecodedShowsRow(j, ZERO, columns, joined.cells, scanned[1..]);
    var s := Assigned(j, ZERO, columns, scanned[1..]);
    hide Assigned;
    hide Readable;
    if s.Next? {
      assert Field(s.profile, Id) == Decoded(j, Id, joined.cells(Id), Field(ZERO, Id));
    }
  }

  /** The wrapped ScanValues and the driver's scan. */
  method ScanJoin(fields: seq<Column>, joined: seq<JoinRow>) returns (ok: bool, scanned: seq<Row>)
    ensures ok ==> ScannedJoin(SelectedColumns(fields), joined, scanned)
    ensures !ok <==> Unscannable(SelectedColumns(fields), joined)
  {
    var columns := QueryColumns(fields);
    IdComesFirst(fields);
    hide SelectedColumns;
    ok, scanned := true, [];
    for k := 0 to |joined|
      invariant |scanned| == k
      invariant forall m :: 0 <= m < k ==> ScannedAt(columns, joined[m], scanned[m])
    {
      var values := ScanRow(columns, joined[k].cells);
      if values.None? {
        return false, [];
      }
      assert ScanInto(KindOf(columns[0]), joined[k].cells(columns[0])) == Some(values.value[0]);
      var row: Row := [NullInt(Some(joined[k].parent))] + values.value;
      assert row[1..] == values.value;
      scanned := scanned + [row];
    }
    forall k, c | 0 <= k < |joined| && c in columns ensures ScanInto(KindOf(c), joined[k].cells(c)).Some? {
      assert ScannedAt(columns, joined[k], scanned[k]);
    }
  }

  datatype LoadError = ScanError | DecodeFailed

  ghost predicate Unscannable(columns: seq<Column>, joined: seq<JoinRow>) {
    exists k, c :: 0 <= k < |joined| && c in columns && ScanInto(KindOf(c), joined[k].cells(c)).None?
  }

  /** The first row of some profile cannot be decoded. */
  ghost predicate Undecodable(j: Json, columns: seq<Column>, joined: seq<JoinRow>) {
    exists k :: 0 <= k < |joined| && !AllReadable(j, columns, joined[k].cells)
                && forall m :: 0 <= m < k ==> IdIn(joined[m].cells) != IdIn(joined[k].cells)
  }

  /** Every repository holds the profiles its rows link it to, one object for each profile, and the
      object shows the selected fields of its first row. */
  ghost predicate Loaded(j: Json, columns: seq<Column>, joined: seq<JoinRow>, rows: seq<Row>,
                         children: seq<Neighbor<Profile>>, nodes: seq<Parent<Profile>>)
    reads nodes
  {
    && ScannedJoin(columns, joined, rows) && |children| == |FirstIds(rows)|
    && (forall n :: 0 <= n < |children| ==>
          children[n].id == FirstIds(rows)[n] && ShowsFirst(j, columns, joined, children[n]))
    && (forall i :: 0 <= i < |nodes| ==> nodes[i].neighbors == Share(nodes, i, children, FirstIds(rows), rows))
  }

  lemma AllAligned(j: Json, fields: seq<Column>, joined: seq<JoinRow>, scanned: seq<Row>)
    requires ScannedJoin(SelectedColumns(fields), joined, scanned)
    ensures forall k :: 0 <= k < |joined| ==> OutId(scanned[k]) == joined[k].parent
    ensures forall k :: 0 <= k < |joined| && DecodeProfile(j, SelectedColumns(fields), scanned[k][1..]).Some? ==>
              DecodeProfile(j, SelectedColumns(fields), scanned[k][1..]).value.id == InId(scanned[k])
    ensures FirstRowFails(scanned, v => DecodeProfile(j, SelectedColumns(fields), v)) <==>
            Undecodable(j, SelectedColumns(fields), joined)
  {
    var columns := SelectedColumns(fields);
    forall k | 0 <= k < |joined|
      ensures OutId(scanned[k]) == joined[k].parent && InId(scanned[k]) == IdIn(joined[k].cells)
      ensures var decoded := DecodeProfile(j, columns, scanned[k][1..]);
              && (decoded.Some? ==> decoded.value.id == InId(scanned[k]))
              && (decoded.Some? <==> AllReadable(j, columns, joined[k].cells))
    {
      JoinedRowIsAligned(j, fields, joined[k], scanned[k]);
    }
    hide SelectedColumns;
    hide DecodeProfile;
    hide AllReadable;
    hide IdIn;
    hide InId;
    hide ScannedAt;
  }

  /** loadBackupProfiles, from the rows of the join to the lists of the repositories. */
  method LoadBackupProfiles(j: Json, nodes: seq<Parent<Profile>>, fields: seq<Column>, joined: seq<JoinRow>)
    returns (error: Option<LoadError>, children: seq<Neighbor<Profile>>, ghost rows: seq<Row>)
    requires forall i, j :: 0 <= i < j < |nodes| ==> nodes[i] != nodes[j]
    requires forall k :: 0 <= k < |joined| ==> HasParent(nodes, joined[k].parent)
    modifies nodes
    ensures error ==
            if Unscannable(SelectedColumns(fields), joined) then Some(ScanError)
            else if Undecodable(j, SelectedColumns(fields), joined) then Some(DecodeFailed)
            else None
    ensures error.None? ==> Loaded(j, SelectedColumns(fields), joined, rows, children, nodes)
  {
    var ok, scanned := ScanJoin(fields, joined);
    rows, children := scanned, [];
    hide SelectedColumns;
    if !ok {
      return Some(ScanError), children, rows;
    }
    ok, children := Scattered(j, nodes, fields, joined, scanned);
    error := if ok then None else Some(DecodeFailed);
  }

  method Scattered(j: Json, nodes: seq<Parent<Profile>>, fields: seq<Column>, joined: seq<JoinRow>, rows: seq<Row>)
    returns (ok: bool, children: seq<Neighbor<Profile>>)
    requires forall i, j :: 0 <= i < j < |nodes| ==> nodes[i] != nodes[j]
    requires forall k :: 0 <= k < |joined| ==> HasParent(nodes, joined[k].parent)
    requires ScannedJoin(SelectedColumns(fields), joined, rows)
    modifies nodes
    ensures ok <==> !Undecodable(j, SelectedColumns(fields), joined)
    ensures ok ==> Loaded(j, SelectedColumns(fields), joined, rows, children, nodes)
  {
    hide SelectedColumns;
    hide Undecodable;
    hide FirstRowFails;
    hide DecodeProfile;
    hide ShowsFirst;
    hide ScannedAt;
    hide FromFirstRow;
    AllAligned(j, fields, joined, rows);
    ok, children := LoadManyToMany(nodes, rows, v => DecodeProfile(j, SelectedColumns(fields), v), (p: Profile) => p.id);
    if ok {
      forall n | 0 <= n < |children| ensures ShowsFirst(j, SelectedColumns(fields), joined, children[n]) {
        FirstRowShows(j, fields, joined, rows, children[n]);
      }
    }
  }

  /** `child` shows the first row of the join that has its id. */
  ghost predicate ShowsFirst(j: Json, columns: seq<Column>, joined: seq<JoinRow>, child: Neighbor<Profile>) {
    exists k ::
      && 0 <= k < |joined| && IdIn(joined[k].cells) == child.id && child.entity.id == child.id
      && ShowsRow(j, ZERO, child.entity, columns, joined[k].cells)
      && forall m :: 0 <= m < k ==> IdIn(joined[m].cells) != child.id
  }

  lemma FirstRowShows(j: Json, fields: seq<Column>, joined: seq<JoinRow>, rows: seq<Row>, child: Neighbor<Profile>)
    requires ScannedJoin(SelectedColumns(fields), joined, rows)
    requires FromFirstRow(child, rows, values => DecodeProfile(j, SelectedColumns(fields), values))
    ensures ShowsFirst(j, SelectedColumns(fields), joined, child)
  {
    var columns := SelectedColumns(fields);
    var k :| 0 <= k < |rows| && InId(rows[k]) == child.id && DecodeProfile(j, columns, rows[k][1..]) == Some(child.entity)
             && forall m :: 0 <= m < k ==> InId(rows[m]) != child.id;
    JoinedRowIsAligned(j, fields, joined[k], rows[k]);
    forall m | 0 <= m < k ensures IdIn(joined[m].cells) != child.id {
      JoinedRowIsAligned(j, fields, joined[m], rows[m]);
      assert InId(rows[m]) != child.id;
    }
  }
}
