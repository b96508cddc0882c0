/** The part of the file system that an update of the application uses.  On a steady disk an operation
    fails only for the reason its contract names; on any other it may also fail for no visible reason, or
    be the last thing the process does.  What matters is every state the disk goes through, not only the
    final one. */
module Disks {
  import opened Prelude
  import opened Paths
  import opened Extraction

  ghost predicate SameOutside(t: Tree, u: Tree, root: Path) {
    forall p :: !Under(root, p) ==> (p in t <==> p in u) && (p in t ==> t[p] == u[p])
  }

  /** Exactly the tree `b`, with its root at [], hangs at `p`. */
  ghost predicate Holds(t: Tree, p: Path, b: Tree) {
    && (forall q :: q in b ==> p + q in t && t[p + q] == b[q])
    && (forall r :: r in t && Under(p, r) ==> r[|p|..] in b)
  }

  ghost predicate Nothing(t: Tree, p: Path) {
    forall r :: r in t ==> !Under(p, r)
  }

  lemma ParentUnder(root: Path, p: Path)
    requires Under(root, p) && root != p
    ensures Under(root, p[..|p| - 1]) && p[..|p| - 1][|root|..] == p[|root|..][..|p| - |root| - 1]
    ensures p[|root|..] != []
  {
    assert root == p[..|root|] && p == p[..|p|];
  }

  lemma HoldsAt(t: Tree, root: Path, b: Tree, p: Path)
    requires Holds(t, root, b) && Under(root, p)
    ensures p in t <==> p[|root|..] in b
    ensures p in t ==> t[p] == b[p[|root|..]]
  {
    assert root + p[|root|..] == p;
  }

  lemma NotTheRoot(t: Tree, root: Path, b: Tree, p: Path)
    requires Holds(t, root, b) && [] in b && Under(root, p) && p !in t
    ensures root != p && Under(root, p[..|p| - 1]) && p[..|p| - 1][|root|..] == p[|root|..][..|p| - |root| - 1]
    ensures p[|root|..] != [] && p[|root|..] !in b
  {
    assert root + [] == root;
    HoldsAt(t, root, b, p);
    ParentUnder(root, p);
  }

  lemma HoldsAdded(t: Tree, root: Path, b: Tree, p: Path, e: Entry)
    requires Holds(t, root, b) && Under(root, p)
    ensures Holds(t[p := e], root, b[p[|root|..] := e])
  {
    assert root + p[|root|..] == p;
    var b' := b[p[|root|..] := e];
    forall q | q in b' ensures root + q in t[p := e] && t[p := e][root + q] == b'[q] {
      if q != p[|root|..] {
        assert (root + q)[|root|..] == q;
      }
    }
  }

  /** The tree at `src` moved to `dst`. */
  function Moved(t: Tree, src: Path, dst: Path): Tree {
    map q | q in (set p | p in t && !Under(src, p) && !Under(dst, p)) + (set p | p in t && Under(src, p) :: dst + p[|src|..]) ::
      if Under(dst, q) then assert forall p :: Under(src, p) ==> src + p[|src|..] == p; t[src + q[|dst|..]] else t[q]
  }

  /** Neither path is below the other. */
  ghost predicate Apart(p: Path, q: Path) {
    forall r :: !(Under(p, r) && Under(q, r))
  }

  lemma SiblingsApart(parent: Path, x: string, y: string)
    requires x != y
    ensures Apart(parent + [x], parent + [y])
  {
    forall r ensures !(Under(parent + [x], r) && Under(parent + [y], r)) {
      if Under(parent + [x], r) {
        assert r[|parent|] == (parent + [x])[|parent|] == x;
      }
    }
  }

  lemma MovedHolds(t: Tree, src: Path, dst: Path, b: Tree)
    requires Apart(src, dst) && Holds(t, src, b)
    ensures Holds(Moved(t, src, dst), dst, b) && Nothing(Moved(t, src, dst), src)
  {
  }

  /** From the state `t`, with history `h`, to the state `u`, with history `k`, nothing outside `root`
      has ever changed. */
  ghost predicate Confined(h: seq<Tree>, t: Tree, k: seq<Tree>, u: Tree, root: Path) {
    && h <= k
    && SameOutside(u, t, root)
    && forall i :: |h| <= i < |k| ==> SameOutside(k[i], t, root)
  }

  lemma ConfinedRefl(h: seq<Tree>, t: Tree, root: Path)
    ensures Confined(h, t, h, t, root)
  {
  }

  lemma SameOutsideTrans(t: Tree, u: Tree, v: Tree, root: Path)
    requires SameOutside(u, t, root) && SameOutside(v, u, root)
    ensures SameOutside(v, t, root)
  {
  }

  lemma ConfinedTrans(h: seq<Tree>, t: Tree, k: seq<Tree>, u: Tree, l: seq<Tree>, v: Tree, root: Path)
    requires Confined(h, t, k, u, root) && Confined(k, u, l, v, root)
    ensures Confined(h, t, l, v, root)
  {
    hide SameOutside;
    SameOutsideTrans(t, u, v, root);
    forall i | |h| <= i < |l| ensures SameOutside(l[i], t, root) {
      if i < |k| {
        assert l[i] == k[i];
      } else {
        SameOutsideTrans(t, u, l[i], root);
      }
    }
  }

  /** `q` is at or below `p`, and nothing is below `q`. */
  predicate IsLeaf(t: Tree, p: Path, q: Path) {
    q in t && Under(p, q) && forall c :: c in t ==> !(q < c)
  }

  /** As long as there is anything there is something without anything below it. */
  lemma {:induction false} LeafBelow(t: Tree, p: Path, q: Path, bound: nat)
    requires q in t && Under(p, q) && forall c :: c in t ==> |c| <= bound
    ensures exists l :: IsLeaf(t, p, l)
    decreases bound - |q|
  {
    if IsLeaf(t, p, q) {
    } else {
      var c :| c in t && q < c;
      LeafBelow(t, p, c, bound);
    }
  }

  lemma {:induction false} Longest(keys: set<Path>) returns (bound: nat)
    ensures forall c :: c in keys ==> |c| <= bound
    decreases |keys|
  {
    bound := 0;
    if c :| c in keys {
      bound := Longest(keys - {c});
      bound := if |c| > bound then |c| else bound;
    }
  }

  lemma NoLeafNothing(t: Tree, p: Path)
    requires forall q :: !IsLeaf(t, p, q)
    ensures Nothing(t, p)
  {
    forall r | r in t ensures !Under(p, r) {
      if Under(p, r) {
        var bound := Longest(t.Keys);
        LeafBelow(t, p, r, bound);
      }
    }
  }

  datatype Result = Done | Failed | Stopped

  class Disk {
    const steady: bool
    var tree: Tree
    /** Every state there has been, up to now. */
    ghost var seen: seq<Tree>

    constructor (steady: bool, tree: Tree)
      ensures this.steady == steady && this.tree == tree && seen == [tree]
    {
      this.steady, this.tree, seen := steady, tree, [tree];
    }

    /** The latest state seen is the present one. */
    ghost predicate Recorded()
      reads this
    {
      seen != [] && seen[|seen| - 1] == tree
    }

    twostate predicate Within(root: Path)
      reads this
    {
      Confined(old(seen), old(tree), seen, tree, root)
    }

    method Become(t: Tree)
      modifies this
      ensures tree == t && seen == old(seen) + [t]
    {
      tree, seen := t, seen + [t];
    }

    /** Whether something goes wrong that the contracts give no reason for. */
    method Trouble() returns (t: bool)
      ensures steady ==> !t
    {
      t := *;
      t := t && !steady;
    }

    /** os.MkdirTemp: `name` is the one it comes up with. */
    method MkdirTemp(parent: Path, name: string) returns (r: Result)
      requires Recorded()
      modifies this
      ensures Recorded() && Within(parent + [name])
      ensures r.Done? ==> Nothing(old(tree), parent + [name]) && tree == old(tree)[parent + [name] := Directory]
      ensures !r.Done? ==> tree == old(tree) && seen == old(seen)
      ensures steady && Nothing(old(tree), parent + [name]) ==> r.Done?
      ensures steady ==> !r.Stopped?
    {
      var temp := parent + [name];
      var stop := Trouble();
      var fail := Trouble();
      if stop { return Stopped; }
      if exists p :: p in tree && Under(temp, p) { return Failed; }
      if fail { return Failed; }
      Become(tree[temp := Directory]);
      r := Done;
    }

    /** os.Mkdir. */
    method Mkdir(p: Path, ghost root: Path) returns (r: Result)
      requires Recorded() && Under(root, p)
      modifies this
      ensures Recorded() && Within(root)
      ensures r.Done? ==> p !in old(tree) && tree == old(tree)[p := Directory]
      ensures !r.Done? ==> tree == old(tree)
      ensures steady && p !in old(tree) ==> r.Done?
      ensures steady ==> !r.Stopped?
    {
      var stop := Trouble();
      var fail := Trouble();
      if stop { return Stopped; }
      if p in tree { return Failed; }
      if fail { return Failed; }
      Become(tree[p := Directory]);
      r := Done;
    }

    /** os.MkdirAll below `root`, where now `b` hangs. */
    method MkdirAll(p: Path, ghost root: Path, ghost b: Tree) returns (r: Result)
      requires Recorded() && Under(root, p) && Holds(tree, root, b) && Rooted(b)
      modifies this
      ensures Recorded() && Within(root)
      ensures r.Done? ==> Free(b, p[|root|..]) && Holds(tree, root, WithDirectories(b, p[|root|..]))
      ensures steady && Free(b, p[|root|..]) ==> r.Done?
      ensures steady ==> !r.Stopped?
      decreases |p|
    {
      hide Holds;
      hide Rooted;
      hide Confined;
      hide WithDirectories;
      hide Free;
      if p in tree {
        ConfinedRefl(seen, tree, root);
        HoldsAt(tree, root, b, p);
        AncestorsThere(b, p[|root|..]);
        r := if tree[p].Directory? then Done else Failed;
        return;
      }
      assert [] in b by {
        RootIn(b);
      }
      NotTheRoot(tree, root, b, p);
      assert p != [];
      var parent := p[..|p| - 1];
      WithDirectoriesSnoc(b, p[|root|..]);
      r := MkdirAll(parent, root, b);
      if !r.Done? { return; }
      ghost var k, u := seen, tree;
      HoldsAt(tree, root, WithDirectories(b, parent[|root|..]), p);
      HoldsAdded(tree, root, WithDirectories(b, parent[|root|..]), p, Directory);
      r := Mkdir(p, root);
      ConfinedTrans(old(seen), old(tree), k, u, seen, tree, root);
    }

    /** os.OpenFile and io.Copy: the content arrives in pieces. */
    method WriteFile(p: Path, content: seq<int>, ghost root: Path, ghost b: Tree) returns (r: Result)
      requires Recorded() && Under(root, p) && root != p && Holds(tree, root, b) && p[|root|..] != []
      modifies this
      ensures Recorded() && Within(root)
      ensures r.Done? ==> Open(b, p[|root|..]) && Holds(tree, root, b[p[|root|..] := File(content)])
      ensures steady && Open(b, p[|root|..]) ==> r.Done?
      ensures steady ==> !r.Stopped?
    {
      hide Holds;
      hide Confined;
      ConfinedRefl(seen, tree, root);
      ParentUnder(root, p);
      var parent := p[..|p| - 1];
      HoldsAt(tree, root, b, p);
      HoldsAt(tree, root, b, parent);
      var stop := Trouble();
      var fail := Trouble();
      if stop { return Stopped; }
      if p in tree && tree[p].Directory? { return Failed; }
      if parent !in tree || !tree[parent].Directory? { return Failed; }
      if fail { return Failed; }
      var n := 0;
      Put(p, File([]), root);
      while n < |content|
        invariant 0 <= n <= |content|
        invariant Recorded() && Confined(old(seen), old(tree), seen, tree, root)
        invariant tree == old(tree)[p := File(content[..n])]
      {
        stop := Trouble();
        if stop { return Stopped; }
        fail := Trouble();
        if fail { return Failed; }
        var m: nat :| n < m <= |content|;
        ghost var k, u := seen, tree;
        Put(p, File(content[..m]), root);
        ConfinedTrans(old(seen), old(tree), k, u, seen, tree, root);
        assert tree == old(tree)[p := File(content[..m])];
        n := m;
      }
      assert content[..n] == content;
      HoldsAdded(old(tree), root, b, p, File(content));
      r := Done;
    }

    method Put(p: Path, e: Entry, ghost root: Path)
      requires Recorded() && Under(root, p)
      modifies this
      ensures Recorded() && Within(root) && tree == old(tree)[p := e]
    {
      Become(tree[p := e]);
    }

    /** The extraction loop of extractAppBundle. */
    method ExtractAll(temp: Path, entries: seq<ZipEntry>) returns (r: Result)
      requires Recorded() && IsPath(temp) && temp != [] && Holds(tree, temp, EMPTY)
      modifies this
      ensures Recorded() && Within(temp)
      ensures r.Done? ==> Extractable(temp, entries, |entries|) && Holds(tree, temp, Extracted(temp, entries, |entries|))
      ensures steady && Extractable(temp, entries, |entries|) ==> r.Done?
      ensures steady ==> !r.Stopped?
    {
      hide Holds;
      hide Confined;
      hide Rooted;
      hide Extract;
      hide Fits;
      hide Extracted;
      hide Extractable;
      hide AllBelow;
      NothingExtracted(temp, entries);
      ConfinedRefl(seen, tree, temp);
      ghost var b := EMPTY;
      EmptyIsRooted();
      var i := 0;
      while i < |entries|
        invariant 0 <= i <= |entries|
        invariant Recorded() && Confined(old(seen), old(tree), seen, tree, temp)
        invariant AllBelow(temp, entries, i) && Extractable(temp, entries, i) && b == Extracted(temp, entries, i)
        invariant Holds(tree, temp, b) && Rooted(b)
      {
        ghost var k, u := seen, tree;
        r := ExtractEntry(temp, entries[i], b);
        ConfinedTrans(old(seen), old(tree), k, u, seen, tree, temp);
        if !r.Done? {
          if Extractable(temp, entries, |entries|) {
            NextFits(temp, entries, i);
          }
          return;
        }
        ExtractedSnoc(temp, entries, i, b);
        b := Extracted(temp, entries, i + 1);
        i := i + 1;
      }
      r := Done;
    }

    /** One turn of the loop: the path is checked as text before anything is created. */
    method ExtractEntry(temp: Path, e: ZipEntry, ghost b: Tree) returns (r: Result)
      requires Recorded() && IsPath(temp) && temp != [] && Holds(tree, temp, b) && Rooted(b)
      modifies this
      ensures Recorded() && Within(temp)
      ensures !(temp < Destination(temp, e.name)) ==> r == Failed && seen == old(seen) && tree == old(tree)
      ensures r.Done? ==> temp < Destination(temp, e.name) && Fits(b, Destination(temp, e.name)[|temp|..], e)
      ensures r.Done? ==> Holds(tree, temp, Extract(b, Destination(temp, e.name)[|temp|..], e))
      ensures steady && temp < Destination(temp, e.name) && Fits(b, Destination(temp, e.name)[|temp|..], e) ==> r.Done?
      ensures steady ==> !r.Stopped?
    {
      hide Holds;
      hide Confined;
      hide Rooted;
      hide Free;
      hide WithDirectories;
      hide Open;
      ConfinedRefl(seen, tree, temp);
      var destPath := Join(Text(temp), e.name);
      var dest := Destination(temp, e.name);
      JoinWalks(temp, e.name);
      TextWalks(dest);
      TextWalks(temp);
      PrefixIsBelow(temp, dest);
      if !HasPrefix(Clean(destPath), Clean(Text(temp)) + "/") {
        return Failed;
      }
      ParentUnder(temp, dest);
      if e.isDirectory {
        r := MkdirAll(dest, temp, b);
        return;
      }
      var parent := dest[..|dest| - 1];
      r := MkdirAll(parent, temp, b);
      if !r.Done? { return; }
      ghost var k, u := seen, tree;
      DirectoriesOpen(b, dest[|temp|..]);
      r := WriteFile(dest, e.content, temp, WithDirectories(b, parent[|temp|..]));
      ConfinedTrans(old(seen), old(tree), k, u, seen, tree, temp);
    }

    /** os.RemoveAll: leaf by leaf, in any order, past the ones that cannot be removed. */
    method RemoveAll(p: Path) returns (r: Result)
      requires Recorded()
      modifies this
      ensures Recorded() && Within(p)
      ensures r.Done? ==> Nothing(tree, p)
      ensures steady ==> r.Done?
      ensures steady ==> !r.Stopped?
    {
      hide Confined;
      ConfinedRefl(seen, tree, p);
      var kept: set<Path> := {};
      while exists q :: q in tree && IsLeaf(tree, p, q) && q !in kept
        invariant Recorded() && Confined(old(seen), old(tree), seen, tree, p)
        invariant steady ==> kept == {}
        decreases |tree.Keys - kept|
      {
        var q :| q in tree && IsLeaf(tree, p, q) && q !in kept;
        ghost var before := tree.Keys - kept;
        var stop := Trouble();
        if stop { return Stopped; }
        var fail := Trouble();
        if fail {
          kept := kept + {q};
        } else {
          ghost var k, u := seen, tree;
          Remove(q, p);
          ConfinedTrans(old(seen), old(tree), k, u, seen, tree, p);
        }
        Fewer(before, tree.Keys - kept, q);
      }
      if steady {
        NoLeafNothing(tree, p);
      }
      r := if forall c :: c in tree ==> !Under(p, c) then Done else Failed;
    }

    method Remove(q: Path, ghost root: Path)
      requires Recorded() && Under(root, q)
      modifies this
      ensures Recorded() && Within(root) && tree == old(tree) - {q}
    {
      Become(tree - {q});
    }

    /** os.Rename: never onto a directory, and no directory onto a file. */
    method Rename(src: Path, dst: Path) returns (r: Result)
      requires Recorded()
      modifies this
      ensures Recorded()
      ensures r.Done? ==> src in old(tree) && tree == Moved(old(tree), src, dst) && seen == old(seen) + [tree]
      ensures !r.Done? ==> tree == old(tree) && seen == old(seen)
      ensures steady && src in old(tree) && !Under(src, dst) && dst !in old(tree) ==> r.Done?
      ensures steady ==> !r.Stopped?
    {
      var stop := Trouble();
      var fail := Trouble();
      if stop { return Stopped; }
      if src !in tree || Under(src, dst) { return Failed; }
      if dst in tree && (tree[dst].Directory? || tree[src].Directory?) { return Failed; }
      if fail { return Failed; }
      Become(Moved(tree, src, dst));
      r := Done;
    }
  }

  lemma RootIn(b: Tree)
    requires Rooted(b)
    ensures [] in b
  {
  }

  lemma NextFits(temp: Path, entries: seq<ZipEntry>, i: nat)
    requires i < |entries| && Extractable(temp, entries, |entries|)
    ensures AllBelow(temp, entries, i) && temp < Destination(temp, entries[i].name)
    ensures Fits(Extracted(temp, entries, i), Destination(temp, entries[i].name)[|temp|..], entries[i])
  {
    hide Fits;
    hide Extracted;
    hide Destination;
    ExtractablePrefix(temp, entries, i + 1, |entries|);
  }

  lemma Fewer(a: set<Path>, b: set<Path>, q: Path)
    requires q in a && b <= a - {q}
    ensures |b| < |a|
  {
    Subset(b, a - {q});
  }

  lemma {:induction false} Subset<T>(a: set<T>, b: set<T>)
    requires a <= b
    ensures |a| <= |b|
    decreases a
  {
    if x :| x in a {
      Subset(a - {x}, b - {x});
    }
  }
}
