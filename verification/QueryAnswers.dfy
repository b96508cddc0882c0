/** What the parts of a query mean (querySpec and sqlQuery, backend/ent/backupprofile_query.go and its
    siblings): the rows of a table it returns, filtered by all its predicates, in the order asked for,
    without the first ones and up to a number. */
module QueryAnswers {
  import opened Prelude

  /** The parts of a query; predicates and the like are known by number. */
  datatype Spec = Spec(
    limit: Option<int>, offset: Option<int>, unique: Option<bool>, fields: seq<string>,
    order: seq<int>, predicates: seq<int>, modifiers: seq<int>, interceptors: seq<int>)

  const BLANK := Spec(None, None, None, [], [], [], [], [])

  /** A table, its rows known by number, with what the predicates and the order options make of them. */
  datatype World = World(table: seq<int>, holds: (int, int) -> bool, rank: (int, int) -> int)

  predicate Passes(w: World, predicates: seq<int>, row: int) {
    forall p :: p in predicates ==> w.holds(p, row)
  }

  /** Row `a` may come before row `b`: the first option that tells them apart decides. */
  predicate InOrder(w: World, order: seq<int>, a: int, b: int) {
    order == [] || w.rank(order[0], a) < w.rank(order[0], b) ||
    (w.rank(order[0], a) == w.rank(order[0], b) && InOrder(w, order[1..], a, b))
  }

  ghost predicate Ordered(w: World, order: seq<int>, rows: seq<int>) {
    forall i, j :: 0 <= i < j < |rows| ==> InOrder(w, order, rows[i], rows[j])
  }

  /** No option tells the rows apart. */
  ghost predicate Tied(w: World, order: seq<int>, a: int, b: int) {
    forall o :: o in order ==> w.rank(o, a) == w.rank(o, b)
  }

  function Insert(w: World, order: seq<int>, row: int, rows: seq<int>): seq<int> {
    if rows == [] || InOrder(w, order, row, rows[0]) then [row] + rows
    else [rows[0]] + Insert(w, order, row, rows[1..])
  }

  /** Rows that are tied stay as they are in the table. */
  function Sort(w: World, order: seq<int>, rows: seq<int>): seq<int> {
    if rows == [] then [] else Insert(w, order, rows[0], Sort(w, order, rows[1..]))
  }

  function Skip(rows: seq<int>, n: int): seq<int> {
    if n <= 0 then rows else if n <= |rows| then rows[n..] else []
  }

  function Take(rows: seq<int>, n: int): seq<int>
  {
    if n <= 0 then [] else if n <= |rows| then rows[..n] else rows
  }

  /** The rows that pass, in order. */
  function Matching(s: Spec, w: World): seq<int> {
    Sort(w, s.order, Filter(w.table, (r: int) => Passes(w, s.predicates, r)))
  }

  /** Limit and offset, where given, are counts. */
  predicate Counts(s: Spec) {
    (s.limit.Some? ==> s.limit.value > 0) && (s.offset.Some? ==> s.offset.value > 0)
  }

  function Behind(s: Spec, w: World): seq<int> {
    if s.offset.Some? then Skip(Matching(s, w), s.offset.value) else Matching(s, w)
  }

  function Front(s: Spec, rows: seq<int>): seq<int>
    requires Counts(s)
  {
    if s.limit.Some? then Take(rows, s.limit.value) else rows
  }

  function Rows(s: Spec, w: World): seq<int>
    requires Counts(s)
  {
    Front(s, Behind(s, w))
  }

  /** Both return the same rows of every table. */
  ghost predicate SameRows(s: Spec, t: Spec) {
    && Counts(t) == Counts(s)
    && (forall w: World :: Matching(t, w) == Matching(s, w))
    && (Counts(s) ==> forall w: World :: Rows(t, w) == Rows(s, w))
  }

  lemma SameParts(s: Spec, t: Spec)
    requires t.order == s.order && t.predicates == s.predicates && t.limit == s.limit && t.offset == s.offset
    ensures SameRows(s, t)
  {
    hide Sort;
    forall w: World
      ensures Matching(t, w) == Matching(s, w) && (Counts(s) ==> Rows(t, w) == Rows(s, w))
    {
      assert Behind(t, w) == Behind(s, w);
    }
  }

  // ---------------------------------------------------------------- filters

  lemma {:induction false} FilterTwice(rows: seq<int>, f: int -> bool, g: int -> bool, both: int -> bool)
    requires forall r :: both(r) == (f(r) && g(r))
    ensures Filter(Filter(rows, f), g) == Filter(rows, both)
  {
    if rows != [] {
      FilterTwice(rows[1..], f, g, both);
      var head := if f(rows[0]) then [rows[0]] else [];
      FilterAppend(head, Filter(rows[1..], f), g);
      assert [rows[0]][1..] == [] && Filter([rows[0]], g) == if g(rows[0]) then [rows[0]] else [];
    }
  }

  lemma {:induction false} InOrderTrans(w: World, order: seq<int>, a: int, b: int, c: int)
    requires InOrder(w, order, a, b) && InOrder(w, order, b, c)
    ensures InOrder(w, order, a, c)
  {
    if order != [] && w.rank(order[0], a) == w.rank(order[0], b) == w.rank(order[0], c) {
      InOrderTrans(w, order[1..], a, b, c);
    }
  }

  lemma {:induction false} InOrderTotal(w: World, order: seq<int>, a: int, b: int)
    ensures InOrder(w, order, a, b) || InOrder(w, order, b, a)
  {
    if order != [] {
      InOrderTotal(w, order[1..], a, b);
    }
  }

  lemma {:induction false} InsertKeeps(w: World, order: seq<int>, row: int, rows: seq<int>)
    ensures multiset(Insert(w, order, row, rows)) == multiset(rows) + multiset{row}
  {
    hide InOrder;
    if rows != [] {
      InsertKeeps(w, order, row, rows[1..]);
      assert rows == [rows[0]] + rows[1..];
    }
  }

  lemma {:induction false} InsertSorts(w: World, order: seq<int>, row: int, rows: seq<int>)
    requires Ordered(w, order, rows)
    ensures Ordered(w, order, Insert(w, order, row, rows))
  {
    hide InOrder;
    var r := Insert(w, order, row, rows);
    if rows == [] {
    } else if InOrder(w, order, row, rows[0]) {
      forall j | 1 <= j < |r| ensures InOrder(w, order, row, r[j]) {
        if j > 1 {
          InOrderTrans(w, order, row, rows[0], rows[j - 1]);
        }
      }
    } else {
      var inner := Insert(w, order, row, rows[1..]);
      InsertSorts(w, order, row, rows[1..]);
      InsertKeeps(w, order, row, rows[1..]);
      InOrderTotal(w, order, row, rows[0]);
      forall j | 0 <= j < |inner| ensures InOrder(w, order, rows[0], inner[j]) {
        assert inner[j] in multiset(inner);
        assert inner[j] == row || inner[j] in rows[1..];
      }
    }
  }

  lemma {:induction false} Sorted(w: World, order: seq<int>, rows: seq<int>)
    ensures Ordered(w, order, Sort(w, order, rows))
    ensures multiset(Sort(w, order, rows)) == multiset(rows)
  {
    if rows != [] {
      Sorted(w, order, rows[1..]);
      InsertSorts(w, order, rows[0], Sort(w, order, rows[1..]));
      InsertKeeps(w, order, rows[0], Sort(w, order, rows[1..]));
      assert rows == [rows[0]] + rows[1..];
    }
  }

  lemma {:induction false} FilterInsert(w: World, order: seq<int>, row: int, rows: seq<int>, f: int -> bool)
    requires Ordered(w, order, rows)
    ensures Filter(Insert(w, order, row, rows), f) ==
            if f(row) then Insert(w, order, row, Filter(rows, f)) else Filter(rows, f)
  {
    var t := Insert(w, order, row, rows);
    if rows == [] || InOrder(w, order, row, rows[0]) {
      assert t[0] == row && t[1..] == rows;
      var kept := Filter(rows, f);
      if kept != [] {
        assert kept[0] in kept;
        var i :| 0 <= i < |rows| && rows[i] == kept[0];
        if i > 0 {
          InOrderTrans(w, order, row, rows[0], rows[i]);
        }
      }
    } else {
      FilterInsert(w, order, row, rows[1..], f);
      assert t[0] == rows[0] && t[1..] == Insert(w, order, row, rows[1..]);
      var kept := Filter(rows[1..], f);
      if f(rows[0]) {
        assert ([rows[0]] + kept)[1..] == kept;
      } else {
        assert [] + kept == kept && [] + Filter(t[1..], f) == Filter(t[1..], f);
      }
    }
  }

  /** Filtering and sorting can be exchanged. */
  lemma {:induction false} FilterSort(w: World, order: seq<int>, rows: seq<int>, f: int -> bool)
    ensures Filter(Sort(w, order, rows), f) == Sort(w, order, Filter(rows, f))
  {
    if rows != [] {
      FilterSort(w, order, rows[1..], f);
      Sorted(w, order, rows[1..]);
      FilterInsert(w, order, rows[0], Sort(w, order, rows[1..]), f);
      var kept := Filter(rows[1..], f);
      if f(rows[0]) {
        assert ([rows[0]] + kept)[1..] == kept;
      } else {
        assert [] + kept == kept;
      }
    }
  }

  /** One more predicate keeps those of the rows that satisfy it, in their order. */
  lemma OneMorePredicate(s: Spec, t: Spec, p: int, w: World)
    requires t.order == s.order && t.predicates == s.predicates + [p]
    ensures Matching(t, w) == Filter(Matching(s, w), (r: int) => w.holds(p, r))
  {
    var f, g := (r: int) => Passes(w, s.predicates, r), (r: int) => w.holds(p, r);
    var both := (r: int) => Passes(w, t.predicates, r);
    forall r ensures both(r) == (f(r) && g(r)) {
      assert p in t.predicates;
      assert forall q :: q in t.predicates <==> q in s.predicates || q == p;
    }
    FilterTwice(w.table, f, g, both);
    FilterSort(w, s.order, Filter(w.table, f), g);
  }

  // ---------------------------------------------------------------- order

  lemma {:induction false} LastDecidesTies(w: World, order: seq<int>, o: int, a: int, b: int)
    requires InOrder(w, order + [o], a, b)
    ensures InOrder(w, order, a, b)
    ensures Tied(w, order, a, b) ==> w.rank(o, a) <= w.rank(o, b)
  {
    var longer := order + [o];
    if order != [] {
      assert longer[0] == order[0] && longer[1..] == order[1..] + [o];
      if w.rank(order[0], a) == w.rank(order[0], b) {
        LastDecidesTies(w, order[1..], o, a, b);
        assert Tied(w, order, a, b) ==> Tied(w, order[1..], a, b);
      } else {
        assert order[0] in order;
      }
    }
  }

  /** One more order option leaves the rows and decides between those that were tied. */
  lemma OneMoreOrder(s: Spec, t: Spec, o: int, w: World)
    requires t.order == s.order + [o] && t.predicates == s.predicates
    ensures var rows := Matching(t, w);
            && multiset(rows) == multiset(Matching(s, w))
            && forall i, j :: 0 <= i < j < |rows| ==>
                 && InOrder(w, s.order, rows[i], rows[j])
                 && (Tied(w, s.order, rows[i], rows[j]) ==> w.rank(o, rows[i]) <= w.rank(o, rows[j]))
  {
    var found := Filter(w.table, (r: int) => Passes(w, s.predicates, r));
    Sorted(w, s.order, found);
    Sorted(w, t.order, found);
    var rows := Matching(t, w);
    assert rows == Sort(w, t.order, found);
    forall i, j | 0 <= i < j < |rows|
      ensures InOrder(w, s.order, rows[i], rows[j])
      ensures Tied(w, s.order, rows[i], rows[j]) ==> w.rank(o, rows[i]) <= w.rank(o, rows[j])
    {
      LastDecidesTies(w, s.order, o, rows[i], rows[j]);
    }
  }

  /** A row is found exactly when it is in the table and satisfies every predicate. */
  lemma MatchingExactly(s: Spec, w: World, r: int)
    ensures r in Matching(s, w) <==> r in w.table && Passes(w, s.predicates, r)
  {
    var found := Filter(w.table, (r: int) => Passes(w, s.predicates, r));
    Sorted(w, s.order, found);
    assert r in Matching(s, w) <==> r in multiset(Matching(s, w));
    assert r in found <==> r in multiset(found);
  }
}
