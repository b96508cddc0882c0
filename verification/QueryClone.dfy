/** Copying a query together with its tree of eager-loading queries (Clone of the query builders,
    backend/ent/repository_query.go and its siblings). */
module QueryClone {
  import opened Prelude
  import opened QueryAnswers

  /** How the rows of an edge are found: over a join table, by a foreign key in the loaded rows, or by a
      foreign key in the rows they are loaded for. */
  datatype Kind = ManyToMany | OneToMany | ManyToOne

  datatype Tree = Tree(kinds: seq<Kind>, spec: Spec, withFKs: bool, edges: seq<Option<Tree>>)

  function Nones(n: nat): (r: seq<Option<Tree>>)
    ensures |r| == n && forall i :: 0 <= i < n ==> r[i] == None
  {
    seq(n, _ => None)
  }

  function Fresh(kinds: seq<Kind>): Tree {
    Tree(kinds, BLANK, false, Nones(|kinds|))
  }

  /** What can be done to a query: its builder methods, and being run.  A run loads the edges that were
      asked for; loading one adds a predicate to its query, sets the flag for foreign keys when the edge
      is of kind OneToMany, and runs that query in turn (`inner`). */
  datatype Op =
    | Where(predicate_: int)
    | OrderBy(order: int)
    | Limit(limit: int)
    | Offset(offset: int)
    | Unique(unique: bool)
    | Select(fields: seq<string>)
    | Modify(modifier: int)
    | Intercept(interceptor: int)
    | With(edge: nat, kinds: seq<Kind>, options: seq<Op>)
    | Load(edge: nat, ids: int, inner: seq<Op>)

  function Changed(s: Spec, op: Op): Spec {
    match op
    case Where(p) => s.(predicates := s.predicates + [p])
    case OrderBy(o) => s.(order := s.order + [o])
    case Limit(n) => s.(limit := Some(n))
    case Offset(n) => s.(offset := Some(n))
    case Unique(b) => s.(unique := Some(b))
    case Select(fields) => s.(fields := s.fields + fields)
    case Modify(m) => s.(modifiers := s.modifiers + [m])
    case Intercept(i) => s.(interceptors := s.interceptors + [i])
    case _ => s
  }

  /** The query of an edge as it is when its rows are fetched. */
  function Bound(t: Tree, kind: Kind, ids: int): Tree {
    t.(spec := Changed(t.spec, Where(ids)), withFKs := t.withFKs || kind.OneToMany?)
  }

  function Applied(t: Tree, op: Op): (r: Tree)
    ensures r.kinds == t.kinds && |r.edges| == |t.edges|
    decreases op
  {
    match op
    case With(edge, kinds, options) =>
      if edge < |t.edges| then t.(edges := t.edges[edge := Some(AppliedAll(Fresh(kinds), options))]) else t
    case Load(edge, ids, inner) =>
      if edge < |t.edges| && edge < |t.kinds| && t.edges[edge].Some? then
        t.(edges := t.edges[edge := Some(AppliedAll(Bound(t.edges[edge].value, t.kinds[edge], ids), inner))])
      else t
    case _ => t.(spec := Changed(t.spec, op))
  }

  function AppliedAll(t: Tree, ops: seq<Op>): (r: Tree)
    ensures r.kinds == t.kinds && |r.edges| == |t.edges|
    decreases ops
  {
    if ops == [] then t else AppliedAll(Applied(t, ops[0]), ops[1..])
  }

  /** `r` satisfies every predicate given by the calls of Where among `ops`. */
  ghost predicate Survives(w: World, ops: seq<Op>, r: int) {
    forall k :: 0 <= k < |ops| && ops[k].Where? ==> w.holds(ops[k].predicate_, r)
  }

  lemma SurvivesFirst(w: World, ops: seq<Op>, r: int)
    requires ops != []
    ensures Survives(w, ops, r) <==> (ops[0].Where? ==> w.holds(ops[0].predicate_, r)) && Survives(w, ops[1..], r)
  {
    if Survives(w, ops[1..], r) && (ops[0].Where? ==> w.holds(ops[0].predicate_, r)) {
      forall k | 0 <= k < |ops| && ops[k].Where? ensures w.holds(ops[k].predicate_, r) {
        if k > 0 {
          assert ops[k] == ops[1..][k - 1];
        }
      }
    }
  }

  /** Whatever calls are made in whatever order, a row is found exactly when it satisfies the predicates
      there were before and every one that was added. */
  lemma {:induction false} FiltersAddUp(t: Tree, ops: seq<Op>, w: World, r: int)
    ensures r in Matching(AppliedAll(t, ops).spec, w) <==> r in w.table && Passes(w, t.spec.predicates, r) && Survives(w, ops, r)
    decreases |ops|
  {
    hide Matching;
    if ops == [] {
      MatchingExactly(t.spec, w, r);
    } else {
      FiltersAddUp(Applied(t, ops[0]), ops[1..], w, r);
      SurvivesFirst(w, ops, r);
      if ops[0].Where? {
        var p, before := ops[0].predicate_, t.spec.predicates;
        assert p in before + [p];
        assert forall q :: q in before + [p] <==> q in before || q == p;
      }
    }
  }

  // ---------------------------------------------------------------- copies as values

  /** What Clone keeps: everything but the flag for foreign keys. */
  function Forgotten(t: Tree): (r: Tree)
    ensures r.kinds == t.kinds && r.spec == t.spec && !r.withFKs && |r.edges| == |t.edges|
    ensures forall i :: 0 <= i < |t.edges| ==> r.edges[i] == if t.edges[i].Some? then Some(Forgotten(t.edges[i].value)) else None
  {
    Tree(t.kinds, t.spec, false, seq(|t.edges|, i requires 0 <= i < |t.edges| =>
      if t.edges[i].Some? then Some(Forgotten(t.edges[i].value)) else None))
  }

  predicate HasManyToOne(t: Tree) {
    exists i :: 0 <= i < |t.edges| && i < |t.kinds| && t.edges[i].Some? && t.kinds[i].ManyToOne?
  }

  predicate ByForeignKey(t: Tree, i: nat) {
    i < |t.kinds| && t.kinds[i].OneToMany?
  }

  /** What is asked of the database: foreign keys are selected when the flag is set, when the query is
      run for an edge of kind OneToMany (`child`), or when an edge of kind ManyToOne is to be loaded. */
  function Asked(t: Tree, child: bool): (r: Tree)
    ensures r.kinds == t.kinds && r.spec == t.spec && r.withFKs == (t.withFKs || child || HasManyToOne(t))
    ensures |r.edges| == |t.edges|
    ensures forall i :: 0 <= i < |t.edges| ==>
              r.edges[i] == if t.edges[i].Some? then Some(Asked(t.edges[i].value, ByForeignKey(t, i))) else None
  {
    Tree(t.kinds, t.spec, t.withFKs || child || HasManyToOne(t), seq(|t.edges|, i requires 0 <= i < |t.edges| =>
      if t.edges[i].Some? then Some(Asked(t.edges[i].value, ByForeignKey(t, i))) else None))
  }

  /** The flag is set only where loading by foreign key sets it again. */
  ghost predicate Plain(t: Tree, child: bool) {
    && (t.withFKs ==> child)
    && forall i :: 0 <= i < |t.edges| && t.edges[i].Some? ==> Plain(t.edges[i].value, ByForeignKey(t, i))
  }

  lemma {:induction false} PlainAsksTheSame(t: Tree, child: bool)
    requires Plain(t, child)
    ensures Asked(Forgotten(t), child) == Asked(t, child)
    decreases t
  {
    SameEdgesAsked(t);
    ForgottenKeepsKinds(t);
  }

  lemma ForgottenKeepsKinds(t: Tree)
    ensures HasManyToOne(Forgotten(t)) == HasManyToOne(t)
    ensures forall i: nat :: ByForeignKey(Forgotten(t), i) == ByForeignKey(t, i)
  {
    var f := Forgotten(t);
    assert forall i :: 0 <= i < |t.edges| ==> f.edges[i].Some? == t.edges[i].Some?;
  }

  lemma {:induction false} SameEdgesAsked(t: Tree)
    requires forall i :: 0 <= i < |t.edges| && t.edges[i].Some? ==> Plain(t.edges[i].value, ByForeignKey(t, i))
    ensures Asked(Forgotten(t), false).edges == Asked(t, false).edges
    ensures forall child :: Asked(Forgotten(t), child).edges == Asked(t, child).edges
    decreases t, 0
  {
    ForgottenKeepsKinds(t);
    forall i | 0 <= i < |t.edges| && t.edges[i].Some?
      ensures Asked(Forgotten(t.edges[i].value), ByForeignKey(t, i)) == Asked(t.edges[i].value, ByForeignKey(t, i))
    {
      PlainAsksTheSame(t.edges[i].value, ByForeignKey(t, i));
    }
  }

  lemma {:induction false} AppliedIsPlain(t: Tree, op: Op, child: bool)
    requires Plain(t, child)
    ensures Plain(Applied(t, op), child)
    decreases op
  {
    var r := Applied(t, op);
    match op
    case With(edge, kinds, options) =>
      if edge < |t.edges| {
        AllAppliedIsPlain(Fresh(kinds), options, ByForeignKey(t, edge));
      }
      assert forall i: nat :: ByForeignKey(r, i) == ByForeignKey(t, i);
    case Load(edge, ids, inner) =>
      if edge < |t.edges| && edge < |t.kinds| && t.edges[edge].Some? {
        var bound := Bound(t.edges[edge].value, t.kinds[edge], ids);
        assert forall i: nat :: ByForeignKey(bound, i) == ByForeignKey(t.edges[edge].value, i);
        AllAppliedIsPlain(bound, inner, ByForeignKey(t, edge));
      }
      assert forall i: nat :: ByForeignKey(r, i) == ByForeignKey(t, i);
    case _ =>
      assert forall i: nat :: ByForeignKey(r, i) == ByForeignKey(t, i);
  }

  lemma {:induction false} AllAppliedIsPlain(t: Tree, ops: seq<Op>, child: bool)
    requires Plain(t, child)
    ensures Plain(AppliedAll(t, ops), child)
    decreases ops
  {
    if ops != [] {
      AppliedIsPlain(t, ops[0], child);
      AllAppliedIsPlain(Applied(t, ops[0]), ops[1..], child);
    }
  }

  /** Whatever has been done to a query since it was made, running it included, a clone asks the database
      for the same rows and columns, over the whole tree: the flag that Clone drops is set again by the
      loading that needs it. */
  lemma CloneAsksTheSame(kinds: seq<Kind>, ops: seq<Op>)
    ensures var t := AppliedAll(Fresh(kinds), ops); Asked(Forgotten(t), false) == Asked(t, false)
  {
    AllAppliedIsPlain(Fresh(kinds), ops, false);
    PlainAsksTheSame(AppliedAll(Fresh(kinds), ops), false);
  }

  /** A query that has been run for an edge and is then used on its own keeps the flag, and its clone
      does not: they ask for the same exactly when the flag is off or an edge needs the keys anyway. */
  lemma FlagMakesTheDifference(t: Tree)
    requires Plain(t, true)
    ensures Asked(Forgotten(t), false) == Asked(t, false) <==> !t.withFKs || HasManyToOne(t)
  {
    SameEdgesAsked(t);
    ForgottenKeepsKinds(t);
  }

  // ---------------------------------------------------------------- copies as objects

  function FirstForgotten(t: Tree, n: nat): (r: seq<Option<Tree>>)
    ensures |r| == |t.edges|
    ensures forall i :: 0 <= i < |r| ==>
              r[i] == if i < n && t.edges[i].Some? then Some(Forgotten(t.edges[i].value)) else None
  {
    seq(|t.edges|, i requires 0 <= i < |t.edges| =>
      if i < n && t.edges[i].Some? then Some(Forgotten(t.edges[i].value)) else None)
  }

  class Query {
    const kinds: seq<Kind>
    var spec: Spec
    var withFKs: bool
    var edges: seq<Query?>
    ghost var Repr: set<object>

    /** The query and its children form a tree of different objects. */
    ghost predicate Valid()
      reads this, Repr
      decreases Repr
    {
      && this in Repr && |edges| == |kinds|
      && (forall i :: 0 <= i < |edges| && edges[i] != null ==>
            edges[i] in Repr && edges[i].Repr <= Repr - {this} && edges[i].Valid())
      && (forall i, j :: 0 <= i < j < |edges| && edges[i] != null && edges[j] != null ==> edges[i].Repr !! edges[j].Repr)
    }

    ghost function View(): (t: Tree)
      requires Valid()
      reads this, Repr
      ensures t.kinds == kinds && t.spec == spec && t.withFKs == withFKs && |t.edges| == |edges|
      ensures forall i :: 0 <= i < |edges| ==> t.edges[i] == if edges[i] == null then None else Some(edges[i].View())
      decreases Repr, |edges| + 1
    {
      Tree(kinds, spec, withFKs, Views(0))
    }

    ghost function Views(n: nat): (r: seq<Option<Tree>>)
      requires Valid() && n <= |edges|
      reads this, Repr
      ensures |r| == |edges| - n
      ensures forall i :: n <= i < |edges| ==> r[i - n] == if edges[i] == null then None else Some(edges[i].View())
      decreases Repr, |edges| - n
    {
      if n == |edges| then [] else [if edges[n] == null then None else Some(edges[n].View())] + Views(n + 1)
    }

    constructor (kinds: seq<Kind>)
      ensures Valid() && fresh(Repr) && View() == Fresh(kinds)
    {
      this.kinds := kinds;
      spec, withFKs := BLANK, false;
      edges := seq(|kinds|, _ => null);
      Repr := {this};
      new;
      assert View().edges == Nones(|kinds|);
    }

    constructor Copy(kinds: seq<Kind>, spec: Spec)
      ensures this.kinds == kinds && this.spec == spec && !withFKs && fresh(Repr) && Repr == {this}
      ensures |edges| == |kinds| && forall i :: 0 <= i < |edges| ==> edges[i] == null
    {
      this.kinds, this.spec := kinds, spec;
      withFKs := false;
      edges := seq(|kinds|, _ => null);
      Repr := {this};
    }

    /** Clone: a new query for every query in the tree. */
    method Clone() returns (c: Query)
      requires Valid()
      ensures c.Valid() && fresh(c.Repr) && c.View() == Forgotten(View())
      decreases Repr
    {
      hide View;
      hide Views;
      ghost var t := View();
      c := new Query.Copy(kinds, spec);
      assert c.View().edges == FirstForgotten(t, 0);
      var i := 0;
      while i < |edges|
        invariant 0 <= i <= |edges|
        invariant c.Valid() && fresh(c.Repr) && c.kinds == kinds
        invariant c.View() == Tree(kinds, spec, false, FirstForgotten(t, i))
      {
        if edges[i] != null {
          var child := edges[i].Clone();
          c.Attach(i, child);
        }
        assert c.View().edges == FirstForgotten(t, i + 1);
        i := i + 1;
      }
      assert FirstForgotten(t, i) == Forgotten(t).edges;
    }

    /** Makes `child` the query of an edge, in place of the one there, if any. */
    method Attach(edge: nat, child: Query)
      requires Valid() && child.Valid() && edge < |edges| && Repr !! child.Repr
      modifies this
      ensures Valid() && Repr == old(Repr) + child.Repr
      ensures View() == old(View()).(edges := old(View()).edges[edge := Some(child.View())])
    {
      hide View;
      hide Views;
      ghost var before := View();
      edges := edges[edge := child];
      Repr := Repr + child.Repr;
      forall k | 0 <= k < |edges| && k != edge && edges[k] != null
        ensures edges[k].Valid() && edges[k].View() == before.edges[k].value
      {
        assert edges[k] == old(edges)[k] && this !in edges[k].Repr;
      }
      assert View().edges == before.edges[edge := Some(child.View())];
    }

    /** Replaces the parts of the query itself. */
    method Put(s: Spec)
      requires Valid()
      modifies this`spec
      ensures Valid() && View() == old(View()).(spec := s)
    {
      hide View;
      hide Views;
      ghost var before := View();
      spec := s;
      assert View().edges == before.edges by {
        ChildrenKeep();
      }
    }

    /** The rows asked for are those of the rows so far that satisfy the predicate. */
    method Where(p: int)
      requires Valid()
      modifies this`spec
      ensures Valid() && View() == old(View()).(spec := spec) && spec == Changed(old(spec), Op.Where(p))
      ensures spec.limit == old(spec).limit && spec.offset == old(spec).offset
      ensures forall w: World :: Matching(spec, w) == Filter(Matching(old(spec), w), (r: int) => w.holds(p, r))
      ensures spec.limit.None? && spec.offset.None? ==>
                forall w: World :: Rows(spec, w) == Filter(Rows(old(spec), w), (r: int) => w.holds(p, r))
    {
      hide View;
      hide Matching;
      hide Filter;
      ghost var s := spec;
      Put(spec.(predicates := spec.predicates + [p]));
      forall w: World ensures Matching(spec, w) == Filter(Matching(s, w), (r: int) => w.holds(p, r)) {
        OneMorePredicate(s, spec, p, w);
      }
    }

    /** The same rows, in an order in which the new option decides where the former ones do not. */
    method OrderBy(o: int)
      requires Valid()
      modifies this`spec
      ensures Valid() && View() == old(View()).(spec := spec) && spec == Changed(old(spec), Op.OrderBy(o))
      ensures spec.limit == old(spec).limit && spec.offset == old(spec).offset
      ensures forall w: World ::
                var rows := Matching(spec, w);
                && multiset(rows) == multiset(Matching(old(spec), w))
                && forall i, j :: 0 <= i < j < |rows| ==>
                     && InOrder(w, old(spec).order, rows[i], rows[j])
                     && (Tied(w, old(spec).order, rows[i], rows[j]) ==> w.rank(o, rows[i]) <= w.rank(o, rows[j]))
    {
      hide View;
      hide Matching;
      hide InOrder;
      hide Tied;
      ghost var s := spec;
      Put(spec.(order := spec.order + [o]));
      forall w: World
        ensures var rows := Matching(spec, w);
                && multiset(rows) == multiset(Matching(s, w))
                && forall i, j :: 0 <= i < j < |rows| ==>
                     && InOrder(w, s.order, rows[i], rows[j])
                     && (Tied(w, s.order, rows[i], rows[j]) ==> w.rank(o, rows[i]) <= w.rank(o, rows[j]))
      {
        OneMoreOrder(s, spec, o, w);
      }
    }

    /** Of the rows behind the offset, the first `n`. */
    method Limit(n: int)
      requires Valid()
      modifies this`spec
      ensures Valid() && View() == old(View()).(spec := spec) && spec == Changed(old(spec), Op.Limit(n))
      ensures n > 0 && Counts(old(spec)) && old(spec).limit.None? ==>
                Counts(spec) && forall w: World :: Rows(spec, w) == Take(Rows(old(spec), w), n)
      ensures n > 0 && Counts(old(spec)) ==>
                Counts(spec) && forall w: World :: Rows(spec, w) == Take(Behind(old(spec), w), n)
    {
      hide View;
      hide Sort;
      ghost var s := spec;
      Put(spec.(limit := Some(n)));
      assert forall w: World :: Matching(spec, w) == Matching(s, w);
    }

    /** The rows without the first `n`, up to the limit there is. */
    method Offset(n: int)
      requires Valid()
      modifies this`spec
      ensures Valid() && View() == old(View()).(spec := spec) && spec == Changed(old(spec), Op.Offset(n))
      ensures n > 0 && Counts(old(spec)) && old(spec).limit.None? && old(spec).offset.None? ==>
                Counts(spec) && forall w: World :: Rows(spec, w) == Skip(Rows(old(spec), w), n)
      ensures n > 0 && Counts(old(spec)) ==>
                Counts(spec) && forall w: World :: Rows(spec, w) == Front(old(spec), Skip(Matching(old(spec), w), n))
    {
      hide View;
      hide Sort;
      ghost var s := spec;
      Put(spec.(offset := Some(n)));
      assert forall w: World :: Matching(spec, w) == Matching(s, w);
    }

    /** The columns asked for are those so far and these; the rows are the same. */
    method Select(fields: seq<string>)
      requires Valid()
      modifies this`spec
      ensures Valid() && View() == old(View()).(spec := spec) && spec == Changed(old(spec), Op.Select(fields))
      ensures forall f :: f in spec.fields <==> f in old(spec).fields || f in fields
      ensures SameRows(old(spec), spec)
    {
      hide View;
      SameParts(spec, spec.(fields := spec.fields + fields));
      Put(spec.(fields := spec.fields + fields));
    }

    method Unique(b: bool)
      requires Valid()
      modifies this`spec
      ensures Valid() && View() == old(View()).(spec := spec) && spec == Changed(old(spec), Op.Unique(b))
      ensures spec.unique == Some(b) && SameRows(old(spec), spec)
    {
      hide View;
      SameParts(spec, spec.(unique := Some(b)));
      Put(spec.(unique := Some(b)));
    }

    /** A modifier comes after those there are. */
    method Modify(m: int)
      requires Valid()
      modifies this`spec
      ensures Valid() && View() == old(View()).(spec := spec) && spec == Changed(old(spec), Op.Modify(m))
      ensures old(spec).modifiers < spec.modifiers && multiset(spec.modifiers) == multiset(old(spec).modifiers) + multiset{m}
      ensures SameRows(old(spec), spec)
    {
      hide View;
      SameParts(spec, spec.(modifiers := spec.modifiers + [m]));
      Put(spec.(modifiers := spec.modifiers + [m]));
    }

    /** An interceptor comes after those there are. */
    method Intercept(i: int)
      requires Valid()
      modifies this`spec
      ensures Valid() && View() == old(View()).(spec := spec) && spec == Changed(old(spec), Op.Intercept(i))
      ensures old(spec).interceptors < spec.interceptors
      ensures multiset(spec.interceptors) == multiset(old(spec).interceptors) + multiset{i}
      ensures SameRows(old(spec), spec)
    {
      hide View;
      SameParts(spec, spec.(interceptors := spec.interceptors + [i]));
      Put(spec.(interceptors := spec.interceptors + [i]));
    }

    method Change(op: Op)
      requires Valid()
      modifies this`spec
      ensures Valid() && View() == old(View()).(spec := Changed(old(View()).spec, op))
    {
      hide View;
      hide Views;
      match op
      case Where(p) => Where(p);
      case OrderBy(o) => OrderBy(o);
      case Limit(n) => Limit(n);
      case Offset(n) => Offset(n);
      case Unique(b) => Unique(b);
      case Select(fields) => Select(fields);
      case Modify(m) => Modify(m);
      case Intercept(i) => Intercept(i);
      case _ =>
    }

    twostate lemma ChildrenKeep()
      requires old(Valid()) && unchanged(`edges, `Repr) && unchanged(Repr - {this})
      ensures Valid() && View().edges == old(View()).edges
    {
      forall k | 0 <= k < |edges| && edges[k] != null ensures edges[k].Valid() && edges[k].View() == old(edges[k].View()) {
        assert this !in edges[k].Repr;
      }
    }

    /** The first part of loading an edge, on the query of the edge: to what the caller asked for it adds
        that the rows belong to the ones loaded. */
    method Bind(kind: Kind, ids: int)
      requires Valid()
      modifies this`spec, this`withFKs
      ensures Valid() && View() == Bound(old(View()), kind, ids)
      ensures withFKs == (old(withFKs) || kind.OneToMany?)
      ensures forall w: World :: Matching(spec, w) == Filter(Matching(old(spec), w), (r: int) => w.holds(ids, r))
    {
      hide View;
      hide Views;
      hide Matching;
      hide Filter;
      if kind.OneToMany? {
        SetFKs();
      }
      Where(ids);
    }

    method SetFKs()
      requires Valid()
      modifies this`withFKs
      ensures Valid() && View() == old(View()).(withFKs := true)
    {
      hide View;
      hide Views;
      ghost var before := View();
      withFKs := true;
      assert View().edges == before.edges by {
        ChildrenKeep();
      }
    }

    /** Everything that can be done to a query changes its own tree as said, and nothing else. */
    method Apply(op: Op)
      requires Valid()
      modifies Repr
      ensures Valid() && fresh(Repr - old(Repr)) && View() == Applied(old(View()), op)
      decreases op, 0
    {
      hide View;
      hide Views;
      match op
      case With(edge, kinds, options) =>
        if edge < |edges| {
          var child := new Query(kinds);
          child.ApplyAll(options);
          Attach(edge, child);
        }
      case Load(edge, ids, inner) =>
        if edge < |edges| && edges[edge] != null {
          LoadEdge(edge, ids, inner);
        }
      case _ => Change(op);
    }

    /** Running a query binds the query of each edge to the rows found and runs it. */
    method LoadEdge(edge: nat, ids: int, inner: seq<Op>)
      requires Valid() && edge < |edges| && edges[edge] != null
      modifies Repr
      ensures Valid() && fresh(Repr - old(Repr)) && View() == Applied(old(View()), Load(edge, ids, inner))
      decreases inner, 1
    {
      hide View;
      hide Views;
      var child := edges[edge];
      child.Bind(kinds[edge], ids);
      child.ApplyAll(inner);
      Repr := Repr + child.Repr;
      ChildChanged(edge);
      assert View().edges == old(View()).edges[edge := Some(child.View())];
    }

    /** One child has changed within its own objects and new ones. */
    twostate lemma ChildChanged(edge: nat)
      requires old(Valid()) && edge < |edges| && edges[edge] != null
      requires unchanged(`edges, `spec, `withFKs) && Repr == old(Repr) + edges[edge].Repr
      requires edges[edge].Valid() && fresh(edges[edge].Repr - old(edges[edge].Repr))
      requires unchanged(old(Repr) - old(edges[edge].Repr) - {this})
      ensures Valid()
      ensures forall k :: 0 <= k < |edges| && k != edge && edges[k] != null ==>
                edges[k].Valid() && edges[k].View() == old(edges[k].View())
    {
      forall k | 0 <= k < |edges| && k != edge && edges[k] != null
        ensures edges[k].Valid() && edges[k].View() == old(edges[k].View()) && edges[k].Repr == old(edges[k].Repr)
      {
        assert old(edges[k].Repr) !! old(edges[edge].Repr);
        assert edges[k] in old(edges[k].Repr);
        assert this !in old(edges[k].Repr);
      }
      assert this !in edges[edge].Repr;
    }

    method ApplyAll(ops: seq<Op>)
      requires Valid()
      modifies Repr
      ensures Valid() && fresh(Repr - old(Repr)) && View() == AppliedAll(old(View()), ops)
      decreases ops, 0
    {
      if |ops| > 0 {
        Apply(ops[0]);
        ApplyAll(ops[1..]);
      }
    }
  }

  /** An edge asked for with options and then loaded is asked for the rows that belong to the loaded ones
      and satisfy every filter among the options. */
  method AskForEdge(q: Query, edge: nat, kinds: seq<Kind>, options: seq<Op>, ids: int)
    requires q.Valid() && edge < |q.edges|
    modifies q.Repr
    ensures q.Valid() && edge < |q.edges| && q.edges[edge] != null
    ensures forall w: World, r: int ::
              r in Matching(q.edges[edge].spec, w) <==> r in w.table && w.holds(ids, r) && Survives(w, options, r)
  {
    hide Applied;
    ghost var t := q.View();
    q.Apply(With(edge, kinds, options));
    q.Apply(Load(edge, ids, []));
    EdgeAsked(t, edge, kinds, options, ids);
    assert q.View().edges[edge].value.spec == q.edges[edge].spec;
  }

  lemma EdgeAsked(t: Tree, edge: nat, kinds: seq<Kind>, options: seq<Op>, ids: int)
    requires edge < |t.edges| == |t.kinds|
    ensures var u := Applied(Applied(t, With(edge, kinds, options)), Load(edge, ids, []));
            && u.edges[edge].Some?
            && forall w: World, r: int ::
                 r in Matching(u.edges[edge].value.spec, w) <==> r in w.table && w.holds(ids, r) && Survives(w, options, r)
  {
    hide Matching;
    hide AppliedAll;
    var u := Applied(Applied(t, With(edge, kinds, options)), Load(edge, ids, []));
    var child := AppliedAll(Fresh(kinds), options);
    LoadedEdge(t, edge, kinds, options, ids);
    forall w: World, r: int
      ensures r in Matching(u.edges[edge].value.spec, w) <==> r in w.table && w.holds(ids, r) && Survives(w, options, r)
    {
      FiltersAddUp(Fresh(kinds), options, w, r);
      OneMorePredicate(child.spec, u.edges[edge].value.spec, ids, w);
    }
  }

  lemma LoadedEdge(t: Tree, edge: nat, kinds: seq<Kind>, options: seq<Op>, ids: int)
    requires edge < |t.edges| == |t.kinds|
    ensures var u, child := Applied(Applied(t, With(edge, kinds, options)), Load(edge, ids, [])), AppliedAll(Fresh(kinds), options);
            && u.edges[edge].Some? && u.edges[edge].value.spec.order == child.spec.order
            && u.edges[edge].value.spec.predicates == child.spec.predicates + [ids]
  {
  }

  /** The operations on the clone (true) or on the original. */
  function Of(ops: seq<(bool, Op)>, clone: bool): seq<Op> {
    if ops == [] then [] else (if ops[0].0 == clone then [ops[0].1] else []) + Of(ops[1..], clone)
  }

  lemma AppliedFirst(t: Tree, ops: seq<(bool, Op)>, clone: bool)
    requires ops != []
    ensures AppliedAll(t, Of(ops, clone)) ==
            AppliedAll(if ops[0].0 == clone then Applied(t, ops[0].1) else t, Of(ops[1..], clone))
  {
    var rest := Of(ops[1..], clone);
    assert [] + rest == rest;
    assert ([ops[0].1] + rest)[1..] == rest;
  }

  method ApplyToEither(q: Query, c: Query, onClone: bool, op: Op)
    requires q.Valid() && c.Valid() && q.Repr !! c.Repr
    modifies q.Repr, c.Repr
    ensures q.Valid() && c.Valid() && q.Repr !! c.Repr && fresh(q.Repr - old(q.Repr)) && fresh(c.Repr - old(c.Repr))
    ensures q.View() == if onClone then old(q.View()) else Applied(old(q.View()), op)
    ensures c.View() == if onClone then Applied(old(c.View()), op) else old(c.View())
  {
    if onClone {
      c.Apply(op);
    } else {
      q.Apply(op);
    }
  }

  /** Whatever is done to one of two separate queries, in whatever order, the other answers as if it had
      been left alone. */
  method Interleave(q: Query, c: Query, ops: seq<(bool, Op)>)
    requires q.Valid() && c.Valid() && q.Repr !! c.Repr
    modifies q.Repr, c.Repr
    ensures q.Valid() && c.Valid()
    ensures q.View() == AppliedAll(old(q.View()), Of(ops, false))
    ensures c.View() == AppliedAll(old(c.View()), Of(ops, true))
    decreases |ops|
  {
    if |ops| > 0 {
      ghost var t, u := q.View(), c.View();
      AppliedFirst(t, ops, false);
      AppliedFirst(u, ops, true);
      hide AppliedAll;
      hide Applied;
      hide Of;
      ApplyToEither(q, c, ops[0].0, ops[0].1);
      Interleave(q, c, ops[1..]);
    }
  }

  /** A clone and its original go their own ways. */
  method CloneIsIndependent(q: Query, ops: seq<(bool, Op)>) returns (c: Query)
    requires q.Valid()
    modifies q.Repr
    ensures q.Valid() && c.Valid()
    ensures q.View() == AppliedAll(old(q.View()), Of(ops, false))
    ensures c.View() == AppliedAll(Forgotten(old(q.View())), Of(ops, true))
  {
    c := q.Clone();
    Interleave(q, c, ops);
  }
}
