/** What extracting a zip archive leaves behind (extractAppBundle, backend/app/app.go), as a function of
    the archive's entries, and what that function means: which archives can be extracted at all, and
    which file or directory every path ends up with. */
module Extraction {
  import opened Prelude
  import opened Paths

  datatype Entry = Directory | File(content: seq<int>)

  type Tree = map<Path, Entry>

  /** `p` is `root` or lies below it. */
  predicate Under(root: Path, p: Path) {
    root <= p
  }

  datatype ZipEntry = ZipEntry(name: string, isDirectory: bool, content: seq<int>)

  /** Where the name of a zip entry leads, starting in the temporary directory. */
  function Destination(temp: Path, name: string): Path {
    Walk(temp, Split(name))
  }

  /** Without "..", a name leads straight down, through its components other than "." and "". */
  lemma {:induction false} StraightDown(base: Path, components: seq<string>)
    requires ".." !in components
    ensures Walk(base, components) == base + Filter(components, (c: string) => c != "" && c != ".")
    decreases |components|
  {
    var proper := (c: string) => c != "" && c != ".";
    if components == [] {
      assert base + [] == base;
    } else {
      StraightDown(Push(base, components[0]), components[1..]);
      assert proper(components[0]) ==>
          base + [components[0]] + Filter(components[1..], proper) == base + ([components[0]] + Filter(components[1..], proper));
      assert !proper(components[0]) ==> [] + Filter(components[1..], proper) == Filter(components[1..], proper);
    }
  }

  /** A name may leave the temporary directory and come back; it is accepted then. */
  lemma ThereAndBack(parent: Path, d: string, x: string)
    requires IsName(d) && IsName(x)
    ensures Destination(parent + [d], "../" + d + "/" + x) == parent + [d, x]
  {
    var temp := parent + [d];
    SplitName("..", d + "/" + x);
    SplitName(d, x);
    SplitSingle(x);
    assert Split("../" + d + "/" + x) == ["..", d, x] by {
      assert "../" + d + "/" + x == ".." + "/" + (d + "/" + x);
    }
    assert temp[..|temp| - 1] == parent;
    assert ["..", d, x][1..] == [d, x] && [d, x][1..] == [x] && [x][1..] == [];
    assert Walk(temp, ["..", d, x]) == Walk(parent, [d, x]) == Walk(parent + [d], [x]) == Walk(parent + [d] + [x], []);
    assert parent + [d] + [x] == parent + [d, x];
  }

  // ---------------------------------------------------------------- one entry

  function Prefixes(p: Path): set<Path> {
    set k | 0 <= k <= |p| :: p[..k]
  }

  /** `p` with its missing ancestors, all as directories, added to a tree rooted at []. */
  function WithDirectories(b: Tree, p: Path): Tree {
    b + map q | q in Prefixes(p) && q !in b :: Directory
  }

  function Extract(b: Tree, p: Path, e: ZipEntry): Tree
    requires p != []
  {
    if e.isDirectory then WithDirectories(b, p)
    else WithDirectories(b, p[..|p| - 1])[p := File(e.content)]
  }

  /** No file is on the way to `p`, nor at it. */
  ghost predicate Free(b: Tree, p: Path) {
    forall q :: q in Prefixes(p) && q in b ==> b[q].Directory?
  }

  /** There is a directory to write the file `p` into, and no directory where it goes. */
  ghost predicate Open(b: Tree, p: Path)
    requires p != []
  {
    && p[..|p| - 1] in b && b[p[..|p| - 1]].Directory?
    && (p in b ==> b[p].File?)
  }

  ghost predicate Fits(b: Tree, p: Path, e: ZipEntry)
    requires p != []
  {
    if e.isDirectory then Free(b, p) else Free(b, p[..|p| - 1]) && (p in b ==> b[p].File?)
  }

  /** There is a root, and with a path its parent is there; both are directories. */
  ghost predicate Rooted(b: Tree) {
    && [] in b && b[[]].Directory?
    && forall q :: q in b && q != [] ==> q[..|q| - 1] in b && b[q[..|q| - 1]].Directory?
  }

  const EMPTY: Tree := map[[] := Directory]

  lemma PrefixesSnoc(p: Path)
    requires p != []
    ensures Prefixes(p) == Prefixes(p[..|p| - 1]) + {p}
  {
    var parent := p[..|p| - 1];
    assert forall k :: 0 <= k < |p| ==> p[..k] == parent[..k] && parent[..k] in Prefixes(parent);
    assert p[..|p|] == p;
  }

  lemma IsPrefix(p: Path, q: Path)
    ensures q in Prefixes(p) <==> q <= p
  {
    if q <= p {
      assert q == p[..|q|];
    }
  }

  lemma WithDirectoriesSnoc(b: Tree, p: Path)
    requires p != [] && p !in b
    ensures WithDirectories(b, p) == WithDirectories(b, p[..|p| - 1])[p := Directory]
    ensures p !in WithDirectories(b, p[..|p| - 1])
    ensures Free(b, p) <==> Free(b, p[..|p| - 1])
  {
    PrefixesSnoc(p);
    IsPrefix(p[..|p| - 1], p);
  }

  /** What is there already, whether directory or file, has its ancestors. */
  lemma {:induction false} AncestorsThere(b: Tree, p: Path)
    requires Rooted(b) && p in b
    ensures WithDirectories(b, p) == b && (Free(b, p) <==> b[p].Directory?)
    decreases |p|
  {
    if p == [] {
      assert forall k :: 0 <= k <= |p| ==> p[..k] == p;
      IsPrefix(p, p);
    } else {
      AncestorsThere(b, p[..|p| - 1]);
      PrefixesSnoc(p);
    }
  }

  lemma DirectoriesOpen(b: Tree, p: Path)
    requires p != [] && Free(b, p[..|p| - 1])
    ensures Open(WithDirectories(b, p[..|p| - 1]), p) <==> (p in b ==> b[p].File?)
  {
    IsPrefix(p[..|p| - 1], p);
    IsPrefix(p[..|p| - 1], p[..|p| - 1]);
  }

  lemma EmptyIsRooted()
    ensures Rooted(EMPTY)
  {
  }

  lemma DirectoriesKeepRooted(b: Tree, p: Path)
    requires Rooted(b) && Free(b, p)
    ensures Rooted(WithDirectories(b, p)) && p in WithDirectories(b, p) && WithDirectories(b, p)[p].Directory?
  {
    var w := WithDirectories(b, p);
    IsPrefix(p, p);
    forall q | q in w && q != [] ensures q[..|q| - 1] in w && w[q[..|q| - 1]].Directory? {
      IsPrefix(p, q[..|q| - 1]);
      if q !in b {
        IsPrefix(p, q);
      }
    }
  }

  lemma ExtractKeepsRooted(b: Tree, p: Path, e: ZipEntry)
    requires Rooted(b) && p != [] && Fits(b, p, e)
    ensures Rooted(Extract(b, p, e))
  {
    if e.isDirectory {
      DirectoriesKeepRooted(b, p);
    } else {
      var w := WithDirectories(b, p[..|p| - 1]);
      DirectoriesKeepRooted(b, p[..|p| - 1]);
      IsPrefix(p[..|p| - 1], p);
      assert Rooted(w[p := File(e.content)]);
    }
  }

  /** What one entry changes: its own path, and ancestors that were missing. */
  lemma ExtractAt(b: Tree, p: Path, e: ZipEntry, q: Path)
    requires p != [] && Fits(b, p, e)
    ensures var u := Extract(b, p, e);
            && (q in u <==> q in b || q <= p)
            && (q == p && !e.isDirectory ==> u[q] == File(e.content))
            && (q < p || (q == p && e.isDirectory) ==> u[q].Directory? && (q in b ==> b[q].Directory?))
            && (!(q <= p) && q in b ==> u[q] == b[q])
            && (q == p && q in b ==> b[q].File? == !e.isDirectory)
  {
    IsPrefix(p, q);
    PrefixesSnoc(p);
  }

  // ---------------------------------------------------------------- the archive

  /** The first `n` entries lead strictly below the temporary directory. */
  ghost predicate AllBelow(temp: Path, entries: seq<ZipEntry>, n: nat)
    requires n <= |entries|
  {
    forall k :: 0 <= k < n ==> temp < Destination(temp, entries[k].name)
  }

  /** What extracting the first `n` entries one after the other leaves in the temporary directory. */
  ghost function Extracted(temp: Path, entries: seq<ZipEntry>, n: nat): Tree
    requires n <= |entries| && AllBelow(temp, entries, n)
  {
    if n == 0 then EMPTY
    else Extract(Extracted(temp, entries, n - 1), Destination(temp, entries[n - 1].name)[|temp|..], entries[n - 1])
  }

  /** The first `n` entries lead below, and each of them fits into what the ones before it left. */
  ghost predicate Extractable(temp: Path, entries: seq<ZipEntry>, n: nat)
    requires n <= |entries|
  {
    && AllBelow(temp, entries, n)
    && (n > 0 ==>
          && Extractable(temp, entries, n - 1)
          && Fits(Extracted(temp, entries, n - 1), Destination(temp, entries[n - 1].name)[|temp|..], entries[n - 1]))
  }

  lemma NothingExtracted(temp: Path, entries: seq<ZipEntry>)
    ensures AllBelow(temp, entries, 0) && Extractable(temp, entries, 0) && Extracted(temp, entries, 0) == EMPTY
  {
  }

  lemma ExtractedSnoc(temp: Path, entries: seq<ZipEntry>, i: nat, b: Tree)
    requires i < |entries| && Extractable(temp, entries, i) && b == Extracted(temp, entries, i) && Rooted(b)
    requires temp < Destination(temp, entries[i].name)
    requires Fits(b, Destination(temp, entries[i].name)[|temp|..], entries[i])
    ensures AllBelow(temp, entries, i + 1) && Extractable(temp, entries, i + 1)
    ensures Extracted(temp, entries, i + 1) == Extract(b, Destination(temp, entries[i].name)[|temp|..], entries[i])
    ensures Rooted(Extracted(temp, entries, i + 1))
  {
    hide Extract;
    hide Destination;
    hide Rooted;
    hide Fits;
    ExtractKeepsRooted(b, Destination(temp, entries[i].name)[|temp|..], entries[i]);
  }

  lemma {:induction false} ExtractablePrefix(temp: Path, entries: seq<ZipEntry>, i: nat, n: nat)
    requires i <= n <= |entries| && Extractable(temp, entries, n)
    ensures Extractable(temp, entries, i)
    decreases n
  {
    if i < n {
      ExtractablePrefix(temp, entries, i, n - 1);
    }
  }

  /** The entry `e` leads to `q`, seen from the temporary directory, or past it. */
  ghost predicate Passes(temp: Path, e: ZipEntry, q: Path) {
    temp + q <= Destination(temp, e.name)
  }

  ghost predicate EndsAt(temp: Path, e: ZipEntry, q: Path) {
    temp + q == Destination(temp, e.name)
  }

  /** `q` has to be a directory for `e`'s sake. */
  ghost predicate NeedsDirectory(temp: Path, e: ZipEntry, q: Path) {
    Passes(temp, e, q) && (EndsAt(temp, e, q) ==> e.isDirectory)
  }

  /** Path by path, what an archive leaves: nothing that no entry asks for, a directory on the way to
      every entry and at every directory entry, and in every file the content of the last entry for it. */
  ghost predicate Faithful(temp: Path, entries: seq<ZipEntry>, n: nat, b: Tree, q: Path)
    requires n <= |entries|
  {
    && (q in b && q != [] ==> exists k :: 0 <= k < n && Passes(temp, entries[k], q))
    && (forall k :: 0 <= k < n && NeedsDirectory(temp, entries[k], q) ==> q in b && b[q].Directory?)
    && (forall k :: 0 <= k < n && EndsAt(temp, entries[k], q) && !entries[k].isDirectory ==>
          && q in b && b[q].File?
          && ((forall j :: k < j < n ==> !EndsAt(temp, entries[j], q)) ==> b[q].content == entries[k].content))
  }

  lemma {:induction false} ExtractedIsFaithful(temp: Path, entries: seq<ZipEntry>, n: nat, q: Path)
    requires n <= |entries| && Extractable(temp, entries, n)
    ensures Faithful(temp, entries, n, Extracted(temp, entries, n), q)
    decreases n
  {
    hide Faithful;
    hide Fits;
    hide Extract;
    hide Destination;
    if n == 0 {
      NothingIsFaithful(temp, entries, q);
    } else {
      ExtractedIsFaithful(temp, entries, n - 1, q);
      FaithfulSnoc(temp, entries, n - 1, Extracted(temp, entries, n - 1), q);
    }
  }

  lemma NothingIsFaithful(temp: Path, entries: seq<ZipEntry>, q: Path)
    ensures Faithful(temp, entries, 0, EMPTY, q)
  {
  }

  lemma PlaceOf(temp: Path, e: ZipEntry, q: Path)
    requires temp < Destination(temp, e.name)
    ensures var p := Destination(temp, e.name)[|temp|..];
            p != [] && (Passes(temp, e, q) <==> q <= p) && (EndsAt(temp, e, q) <==> q == p)
  {
    var d := Destination(temp, e.name);
    assert d == temp + d[|temp|..];
    if Passes(temp, e, q) {
      assert q == (temp + q)[|temp|..] == d[|temp|..][..|q|];
    }
  }

  lemma FaithfulSnoc(temp: Path, entries: seq<ZipEntry>, n: nat, b: Tree, q: Path)
    requires n < |entries| && Faithful(temp, entries, n, b, q) && temp < Destination(temp, entries[n].name)
    requires Fits(b, Destination(temp, entries[n].name)[|temp|..], entries[n])
    ensures Faithful(temp, entries, n + 1, Extract(b, Destination(temp, entries[n].name)[|temp|..], entries[n]), q)
  {
    hide Extract;
    hide Fits;
    hide Destination;
    hide Passes;
    hide EndsAt;
    var p := Destination(temp, entries[n].name)[|temp|..];
    PlaceOf(temp, entries[n], q);
    ExtractAt(b, p, entries[n], q);
  }

  /** The file `e` is where a directory is needed for `f`. */
  ghost predicate InTheWay(temp: Path, e: ZipEntry, f: ZipEntry) {
    && !e.isDirectory
    && Destination(temp, e.name) <= Destination(temp, f.name)
    && (Destination(temp, e.name) == Destination(temp, f.name) ==> f.isDirectory)
  }

  ghost predicate Compatible(temp: Path, entries: seq<ZipEntry>, n: nat)
    requires n <= |entries|
  {
    forall i, k :: 0 <= i < n && 0 <= k < n ==> !InTheWay(temp, entries[i], entries[k])
  }

  /** An archive can be extracted, in whatever order its entries come, exactly when all of them lead
      below the temporary directory and no file is where another entry needs a directory. */
  lemma {:induction false} ExtractableExactly(temp: Path, entries: seq<ZipEntry>, n: nat)
    requires n <= |entries|
    ensures Extractable(temp, entries, n) <==> AllBelow(temp, entries, n) && Compatible(temp, entries, n)
    decreases n
  {
    hide Destination;
    hide Extracted;
    hide Fits;
    hide InTheWay;
    if n > 0 {
      ExtractableExactly(temp, entries, n - 1);
      NotInItsOwnWay(temp, entries[n - 1]);
      if Extractable(temp, entries, n - 1) && AllBelow(temp, entries, n) {
        FitsExactly(temp, entries, n - 1);
      }
    }
  }

  lemma NotInItsOwnWay(temp: Path, e: ZipEntry)
    ensures !InTheWay(temp, e, e)
  {
  }

  lemma FitsExactly(temp: Path, entries: seq<ZipEntry>, n: nat)
    requires n < |entries| && Extractable(temp, entries, n) && temp < Destination(temp, entries[n].name)
    ensures Fits(Extracted(temp, entries, n), Destination(temp, entries[n].name)[|temp|..], entries[n]) <==>
            forall i :: 0 <= i < n ==> !InTheWay(temp, entries[i], entries[n]) && !InTheWay(temp, entries[n], entries[i])
  {
    var p, b := Destination(temp, entries[n].name)[|temp|..], Extracted(temp, entries, n);
    PlaceOf(temp, entries[n], p);
    if Fits(b, p, entries[n]) {
      forall i | 0 <= i < n ensures !InTheWay(temp, entries[i], entries[n]) && !InTheWay(temp, entries[n], entries[i]) {
        FittingIsCompatible(temp, entries, n, i);
      }
    }
    if forall i :: 0 <= i < n ==> !InTheWay(temp, entries[i], entries[n]) && !InTheWay(temp, entries[n], entries[i]) {
      CompatibleFits(temp, entries, n);
    }
  }

  lemma FittingIsCompatible(temp: Path, entries: seq<ZipEntry>, n: nat, i: nat)
    requires i < n < |entries| && Extractable(temp, entries, n) && temp < Destination(temp, entries[n].name)
    requires Fits(Extracted(temp, entries, n), Destination(temp, entries[n].name)[|temp|..], entries[n])
    ensures !InTheWay(temp, entries[i], entries[n]) && !InTheWay(temp, entries[n], entries[i])
  {
    hide Destination;
    hide Extracted;
    hide Extract;
    hide Fits;
    hide Extractable;
    ExtractableBelow(temp, entries, n, i);
    var b, e := Extracted(temp, entries, n), entries[n];
    var p, q := Destination(temp, e.name)[|temp|..], Destination(temp, entries[i].name)[|temp|..];
    PlaceOf(temp, e, q);
    PlaceOf(temp, entries[i], p);
    PlaceOf(temp, entries[i], q);
    PlaceOf(temp, e, p);
    ExtractedIsFaithful(temp, entries, n, q);
    ExtractedIsFaithful(temp, entries, n, p);
    ExtractAt(b, p, e, q);
    ExtractAt(b, p, e, p);
  }

  lemma ExtractableBelow(temp: Path, entries: seq<ZipEntry>, n: nat, i: nat)
    requires i < n <= |entries| && Extractable(temp, entries, n)
    ensures AllBelow(temp, entries, n) && temp < Destination(temp, entries[i].name)
  {
  }

  lemma CompatibleFits(temp: Path, entries: seq<ZipEntry>, n: nat)
    requires n < |entries| && Extractable(temp, entries, n) && temp < Destination(temp, entries[n].name)
    requires forall i :: 0 <= i < n ==> !InTheWay(temp, entries[i], entries[n]) && !InTheWay(temp, entries[n], entries[i])
    ensures Fits(Extracted(temp, entries, n), Destination(temp, entries[n].name)[|temp|..], entries[n])
  {
    hide Destination;
    hide Extracted;
    hide Passes;
    hide EndsAt;
    hide InTheWay;
    hide Rooted;
    var b, e := Extracted(temp, entries, n), entries[n];
    hide Extractable;
    var p := Destination(temp, e.name)[|temp|..];
    PlaceOf(temp, e, p);
    var d := if e.isDirectory then p else p[..|p| - 1];
    forall q | q in Prefixes(d) && q in b ensures b[q].Directory? {
      IsPrefix(d, q);
      PlaceOf(temp, e, q);
      if q == [] {
        RootIsDirectory(temp, entries, n);
      } else {
        DirectoryOnTheWay(temp, entries, n, q);
      }
    }
    if !e.isDirectory && p in b {
      FileAtTheEnd(temp, entries, n);
    }
  }

  lemma RootIsDirectory(temp: Path, entries: seq<ZipEntry>, n: nat)
    requires n <= |entries| && Extractable(temp, entries, n)
    ensures var b := Extracted(temp, entries, n); [] in b && b[[]].Directory?
  {
    hide Extracted;
    RootExtracted(temp, entries, n);
  }

  lemma {:induction false} RootExtracted(temp: Path, entries: seq<ZipEntry>, n: nat)
    requires n <= |entries| && Extractable(temp, entries, n)
    ensures Rooted(Extracted(temp, entries, n))
  {
    hide Destination;
    hide Rooted;
    hide Fits;
    hide Extract;
    if n == 0 {
      EmptyIsRooted();
    } else {
      RootExtracted(temp, entries, n - 1);
      ExtractedSnoc(temp, entries, n - 1, Extracted(temp, entries, n - 1));
    }
  }

  lemma DirectoryOnTheWay(temp: Path, entries: seq<ZipEntry>, n: nat, q: Path)
    requires n < |entries| && Extractable(temp, entries, n) && temp < Destination(temp, entries[n].name)
    requires NeedsDirectory(temp, entries[n], q) && q in Extracted(temp, entries, n) && q != []
    requires forall i :: 0 <= i < n ==> !InTheWay(temp, entries[i], entries[n])
    ensures Extracted(temp, entries, n)[q].Directory?
  {
    hide Destination;
    hide Extracted;
    hide Extractable;
    ExtractedIsFaithful(temp, entries, n, q);
    var k :| 0 <= k < n && Passes(temp, entries[k], q);
    assert !InTheWay(temp, entries[k], entries[n]);
    assert NeedsDirectory(temp, entries[k], q);
  }

  lemma FileAtTheEnd(temp: Path, entries: seq<ZipEntry>, n: nat)
    requires n < |entries| && Extractable(temp, entries, n) && temp < Destination(temp, entries[n].name)
    requires !entries[n].isDirectory
    requires Destination(temp, entries[n].name)[|temp|..] in Extracted(temp, entries, n)
    requires forall i :: 0 <= i < n ==> !InTheWay(temp, entries[n], entries[i])
    ensures Extracted(temp, entries, n)[Destination(temp, entries[n].name)[|temp|..]].File?
  {
    hide Destination;
    hide Extracted;
    hide Extractable;
    var p := Destination(temp, entries[n].name)[|temp|..];
    PlaceOf(temp, entries[n], p);
    ExtractedIsFaithful(temp, entries, n, p);
    var k :| 0 <= k < n && Passes(temp, entries[k], p);
    assert !InTheWay(temp, entries[n], entries[k]);
  }

  // ---------------------------------------------------------------- the bundle

  /** The part of a tree below `p`. */
  function SubTree(b: Tree, p: Path): Tree {
    map q | q in (set r | r in b && Under(p, r) :: r[|p|..]) ::
      assert forall r :: Under(p, r) ==> p + r[|p|..] == r; b[p + q]
  }

  lemma SubTreeAt(b: Tree, p: Path, q: Path)
    ensures q in SubTree(b, p) <==> p + q in b
    ensures q in SubTree(b, p) ==> SubTree(b, p)[q] == b[p + q]
  {
    assert (p + q)[|p|..] == q;
    assert forall r :: Under(p, r) ==> p + r[|p|..] == r;
  }

  /** The bundle in the archive, if the archive can be extracted. */
  ghost function BundleOf(temp: Path, entries: seq<ZipEntry>): Tree {
    if Extractable(temp, entries, |entries|) then SubTree(Extracted(temp, entries, |entries|), ["arco.app"]) else map[]
  }

  /** An archive holds a bundle exactly when it can be extracted and an entry leads to "arco.app" or
      below it. */
  lemma HasBundle(temp: Path, entries: seq<ZipEntry>)
    ensures [] in BundleOf(temp, entries) <==>
            && AllBelow(temp, entries, |entries|) && Compatible(temp, entries, |entries|)
            && exists k :: 0 <= k < |entries| && Under(temp + ["arco.app"], Destination(temp, entries[k].name))
  {
    hide Destination;
    hide Extracted;
    var n := |entries|;
    ExtractableExactly(temp, entries, n);
    if Extractable(temp, entries, n) {
      var b := Extracted(temp, entries, n);
      SubTreeAt(b, ["arco.app"], []);
      assert ["arco.app"] + [] == ["arco.app"];
      ExtractedIsFaithful(temp, entries, n, ["arco.app"]);
      if k :| 0 <= k < n && Under(temp + ["arco.app"], Destination(temp, entries[k].name)) {
        assert Passes(temp, entries[k], ["arco.app"]);
        assert NeedsDirectory(temp, entries[k], ["arco.app"]) || EndsAt(temp, entries[k], ["arco.app"]);
      }
    }
  }

  /** The bundle has, path by path, what the entries below "arco.app" ask for. */
  lemma BundleIsFaithful(temp: Path, entries: seq<ZipEntry>, q: Path)
    requires [] in BundleOf(temp, entries)
    ensures var b := BundleOf(temp, entries);
            && (q in b && q != [] ==> exists k :: 0 <= k < |entries| && Passes(temp, entries[k], ["arco.app"] + q))
            && (forall k :: 0 <= k < |entries| && NeedsDirectory(temp, entries[k], ["arco.app"] + q) ==> q in b && b[q] == Directory)
            && (forall k :: 0 <= k < |entries| && EndsAt(temp, entries[k], ["arco.app"] + q) && !entries[k].isDirectory &&
                            (forall j :: k < j < |entries| ==> !EndsAt(temp, entries[j], ["arco.app"] + q)) ==>
                  q in b && b[q] == File(entries[k].content))
  {
    hide Destination;
    hide Extracted;
    hide Passes;
    hide EndsAt;
    SubTreeAt(Extracted(temp, entries, |entries|), ["arco.app"], q);
    ExtractedIsFaithful(temp, entries, |entries|, ["arco.app"] + q);
  }
}
