/** Replacing the application bundle on macOS (extractAppBundle and cleanupOldAppBundles,
    backend/app/app.go): what the application's path and its backup hold at every moment, whatever fails
    and wherever the process stops, and when an update that nothing disturbs succeeds. */
module BundleUpdate {
  import opened Prelude
  import opened Paths
  import opened Extraction
  import opened Disks

  /** A bundle at `p` that is one of the complete ones in `good`. */
  ghost predicate Complete(t: Tree, p: Path, good: set<Tree>) {
    exists b :: b in good && [] in b && Holds(t, p, b)
  }

  /** There is a complete bundle at the application's path, or nothing there and one in the backup. */
  ghost predicate Safe(t: Tree, app: Path, old_: Path, good: set<Tree>) {
    Complete(t, app, good) || (Nothing(t, app) && Complete(t, old_, good))
  }

  // ---------------------------------------------------------------- one update

  /** The paths of an update, the bundle that is there before it, and the one the archive holds. */
  datatype Update = Update(app: Path, backup: Path, temp: Path, now: Tree, next: Tree)

  datatype Stage = Before | Aside | Replaced

  ghost predicate At(m: Update, stage: Stage, t: Tree) {
    match stage
    case Before => Holds(t, m.app, m.now)
    case Aside => Nothing(t, m.app) && Holds(t, m.backup, m.now)
    case Replaced => Holds(t, m.app, m.next) && [] in m.next && Holds(t, m.backup, m.now)
  }

  ghost predicate Places(m: Update) {
    Apart(m.app, m.backup) && Apart(m.app, m.temp) && Apart(m.backup, m.temp)
  }

  ghost predicate Untouched(m: Update, t: Tree, u: Tree) {
    forall p :: !Under(m.app, p) && !Under(m.backup, p) && !Under(m.temp, p) ==>
      (p in t <==> p in u) && (p in t ==> t[p] == u[p])
  }

  ghost predicate Sound(m: Update, t: Tree, u: Tree) {
    Untouched(m, t, u) && exists stage :: At(m, stage, u)
  }

  ghost predicate SoundSince(m: Update, t: Tree, n: nat, seen: seq<Tree>) {
    forall i :: n <= i < |seen| ==> Sound(m, t, seen[i])
  }

  lemma HoldsElsewhere(t: Tree, u: Tree, root: Path, p: Path, b: Tree)
    requires SameOutside(u, t, root) && Apart(p, root)
    ensures Holds(t, p, b) ==> Holds(u, p, b)
    ensures Nothing(t, p) ==> Nothing(u, p)
  {
    assert forall q :: Under(p, p + q);
  }

  lemma StageKept(m: Update, stage: Stage, t: Tree, u: Tree, root: Path)
    requires Places(m) && At(m, stage, t) && SameOutside(u, t, root)
    requires root == m.temp || (root == m.backup && stage.Before?)
    ensures At(m, stage, u)
  {
    hide Holds;
    hide Nothing;
    hide Apart;
    ApartSymmetric(m.app, m.backup);
    HoldsElsewhere(t, u, root, m.app, m.now);
    HoldsElsewhere(t, u, root, m.app, m.next);
    if root == m.temp {
      HoldsElsewhere(t, u, root, m.backup, m.now);
    }
  }

  lemma ApartSymmetric(p: Path, q: Path)
    requires Apart(p, q)
    ensures Apart(q, p)
  {
  }

  lemma UntouchedTrans(m: Update, s: Tree, t: Tree, u: Tree, root: Path)
    requires Untouched(m, s, t) && SameOutside(u, t, root) && (root == m.temp || root == m.backup)
    ensures Untouched(m, s, u)
  {
  }

  /** What happens below the temporary directory, or below the backup before the application is moved,
      leaves the update where it is, at every moment. */
  lemma SoundStep(m: Update, stage: Stage, s: Tree, n: nat, h: seq<Tree>, t: Tree, k: seq<Tree>, u: Tree, root: Path)
    requires Places(m) && SoundSince(m, s, n, h) && n <= |h| && At(m, stage, t) && Untouched(m, s, t)
    requires Confined(h, t, k, u, root)
    requires root == m.temp || (root == m.backup && stage.Before?)
    ensures SoundSince(m, s, n, k) && At(m, stage, u) && Untouched(m, s, u)
  {
    hide SameOutside;
    hide At;
    hide Untouched;
    hide Places;
    forall i | n <= i < |k| ensures Sound(m, s, k[i]) {
      if i < |h| {
        assert k[i] == h[i];
      } else {
        StageKept(m, stage, t, k[i], root);
        UntouchedTrans(m, s, t, k[i], root);
      }
    }
    StageKept(m, stage, t, u, root);
    UntouchedTrans(m, s, t, u, root);
  }

  lemma SubTreeHolds(t: Tree, temp: Path, b: Tree, p: Path)
    requires Holds(t, temp, b)
    ensures Holds(t, temp + p, SubTree(b, p))
  {
    forall q | q in SubTree(b, p) ensures (temp + p) + q in t && t[(temp + p) + q] == SubTree(b, p)[q] {
      assert (temp + p) + q == temp + (p + q);
      assert forall r :: Under(p, r) ==> p + r[|p|..] == r;
      assert p + q in b;
    }
    forall r | r in t && Under(temp + p, r) ensures r[|temp + p|..] in SubTree(b, p) {
      assert Under(temp, r) && r[|temp|..] in b;
      assert Under(p, r[|temp|..]);
      assert r[|temp|..][|p|..] == r[|temp + p|..];
    }
  }

  predicate AllDigits(s: string) {
    forall k :: 0 <= k < |s| ==> '0' <= s[k] <= '9'
  }

  const PREFIX := "arco-update-"
  const OLD := ".old"

  function UpdateFor(parent: Path, name: string, temp: string): (Path, Path, Path)
  {
    (parent + [name], parent + [name + OLD], parent + [temp])
  }

  lemma PlacesApart(m: Update, parent: Path, name: string, digits: string)
    requires AllDigits(digits) && name != PREFIX + digits
    requires (m.app, m.backup, m.temp) == UpdateFor(parent, name, PREFIX + digits)
    ensures Places(m)
  {
    assert name + OLD != name by {
      assert |name + OLD| != |name|;
    }
    var x, y := name + OLD, PREFIX + digits;
    assert x[|x| - 1] == 'd' && y[|y| - 1] != 'd';
    SiblingsApart(parent, name, x);
    SiblingsApart(parent, name, y);
    SiblingsApart(parent, x, y);
  }

  /** appBundlePath + ".old" is the path of the sibling with the longer name. */
  lemma BackupText(parent: Path, name: string)
    ensures Text(parent + [name]) + ".old" == Text(parent + [name + OLD])
  {
    RenderAppend(parent, [name]);
    RenderAppend(parent, [name + OLD]);
    assert Render([name + OLD]) == "/" + (name + OLD) + Render([]);
    assert Render([name]) == "/" + name + Render([]);
  }

  /** The archive can be extracted, and the check for a bundle lets it pass. */
  ghost predicate Supplied(temp: Path, entries: seq<ZipEntry>, statFails: bool) {
    Extractable(temp, entries, |entries|) && (statFails || [] in BundleOf(temp, entries))
  }

  /** From the verified extraction to the renaming of the new bundle; `statFails` when os.Stat of the
      extracted bundle fails for another reason than its absence. */
  method Replace(disk: Disk, app: Path, backup: Path, temp: Path, ghost m: Update, entries: seq<ZipEntry>,
                 statFails: bool, ghost before: Tree, ghost n: nat)
    returns (r: Result, ghost stage: Stage)
    requires disk.Recorded() && Places(m) && IsPath(m.temp) && m.temp != [] && [] in m.now
    requires (m.app, m.backup, m.temp) == (app, backup, temp)
    requires At(m, Before, disk.tree) && Untouched(m, before, disk.tree) && Holds(disk.tree, m.temp, EMPTY)
    requires m.next == BundleOf(m.temp, entries) && n <= |disk.seen| && SoundSince(m, before, n, disk.seen)
    modifies disk
    ensures disk.Recorded() && old(disk.seen) <= disk.seen
    ensures SoundSince(m, before, n, disk.seen)
    ensures At(m, stage, disk.tree) && Untouched(m, before, disk.tree)
    ensures r.Done? <==> stage.Replaced?
    ensures !Supplied(temp, entries, statFails) ==> stage.Before? && disk.Within(temp)
    ensures disk.steady ==> !r.Stopped?
    ensures disk.steady && Supplied(temp, entries, statFails) ==> stage == if [] in m.next then Replaced else Aside
  {
    hide Confined;
    hide At;
    hide Untouched;
    hide Places;
    hide Holds;
    hide SoundSince;
    hide Nothing;
    hide Extractable;
    hide Extracted;
    stage := Before;
    ghost var h, t := disk.seen, disk.tree;
    r := disk.ExtractAll(temp, entries);
    SoundStep(m, stage, before, n, h, t, disk.seen, disk.tree, m.temp);
    ConfinedGrows(h, t, disk.seen, disk.tree, m.temp);
    if !r.Done? { return; }
    var tempApp := temp + ["arco.app"];
    BundleIsThere(disk.tree, temp, entries);
    var stop := disk.Trouble();
    if stop { return Stopped, stage; }
    if !statFails && tempApp !in disk.tree {
      return Failed, stage;
    }
    h, t := disk.seen, disk.tree;
    r := disk.RemoveAll(backup);
    SoundStep(m, stage, before, n, h, t, disk.seen, disk.tree, m.backup);
    ConfinedGrows(h, t, disk.seen, disk.tree, m.backup);
    ExtractedStays(m, entries, t, disk.tree);
    if r.Stopped? { return; }
    r, stage := Swap(disk, app, backup, temp, m, before, n);
  }

  /** The two renames. */
  method Swap(disk: Disk, app: Path, backup: Path, temp: Path, ghost m: Update, ghost before: Tree, ghost n: nat)
    returns (r: Result, ghost stage: Stage)
    requires (m.app, m.backup, m.temp) == (app, backup, temp) && [] in m.now
    requires disk.Recorded() && Places(m) && n <= |disk.seen| && SoundSince(m, before, n, disk.seen)
    requires At(m, Before, disk.tree) && Untouched(m, before, disk.tree)
    requires Holds(disk.tree, m.temp + ["arco.app"], m.next)
    modifies disk
    ensures disk.Recorded() && old(disk.seen) <= disk.seen && SoundSince(m, before, n, disk.seen)
    ensures At(m, stage, disk.tree) && Untouched(m, before, disk.tree)
    ensures r.Done? <==> stage.Replaced?
    ensures disk.steady ==> !r.Stopped?
    ensures disk.steady && Nothing(old(disk.tree), backup) ==> stage == if [] in m.next then Replaced else Aside
  {
    hide At;
    hide Untouched;
    hide Places;
    hide SoundSince;
    hide Moved;
    hide Holds;
    hide Nothing;
    stage := Before;
    ghost var h, t := disk.seen, disk.tree;
    if Nothing(t, backup) {
      FirstRenameCan(m, t);
    }
    r := disk.Rename(app, backup);
    if !r.Done? { return; }
    stage := Aside;
    FirstRename(m, before, n, h, t);
    h, t := disk.seen, disk.tree;
    SecondRenameCan(m, t);
    r := disk.Rename(temp + ["arco.app"], app);
    if !r.Done? { return; }
    stage := Replaced;
    SecondRename(m, before, n, h, t);
  }

  lemma FirstRenameCan(m: Update, t: Tree)
    requires Places(m) && At(m, Before, t) && [] in m.now && Nothing(t, m.backup)
    ensures m.app in t && !Under(m.app, m.backup) && m.backup !in t
  {
    assert m.app + [] == m.app;
    assert Under(m.backup, m.backup);
  }

  lemma SecondRenameCan(m: Update, t: Tree)
    requires Places(m) && At(m, Aside, t) && Holds(t, m.temp + ["arco.app"], m.next)
    ensures m.temp + ["arco.app"] in t <==> [] in m.next
    ensures !Under(m.temp + ["arco.app"], m.app) && m.app !in t
  {
    var src := m.temp + ["arco.app"];
    HoldsAt(t, src, m.next, src);
    assert src[|src|..] == [];
    BelowIsUnder(m.temp, ["arco.app"]);
    assert Under(m.app, m.app);
  }

  lemma BundleIsThere(t: Tree, temp: Path, entries: seq<ZipEntry>)
    requires Extractable(temp, entries, |entries|) && Holds(t, temp, Extracted(temp, entries, |entries|))
    ensures temp + ["arco.app"] in t <==> [] in BundleOf(temp, entries)
  {
    hide Extracted;
    hide Holds;
    var b, p := Extracted(temp, entries, |entries|), temp + ["arco.app"];
    HoldsAt(t, temp, b, p);
    assert p[|temp|..] == ["arco.app"] == ["arco.app"] + [];
    SubTreeAt(b, ["arco.app"], []);
  }

  lemma RootThere(t: Tree, p: Path, b: Tree)
    requires Holds(t, p, b) && p in t
    ensures [] in b
  {
    assert p[|p|..] == [];
  }

  lemma ConfinedGrows(h: seq<Tree>, t: Tree, k: seq<Tree>, u: Tree, root: Path)
    requires Confined(h, t, k, u, root)
    ensures h <= k && SameOutside(u, t, root)
  {
  }

  /** Removing the previous backup does not touch what was extracted. */
  lemma ExtractedStays(m: Update, entries: seq<ZipEntry>, t: Tree, u: Tree)
    requires Places(m) && SameOutside(u, t, m.backup)
    requires Extractable(m.temp, entries, |entries|) && Holds(t, m.temp, Extracted(m.temp, entries, |entries|))
    requires m.next == BundleOf(m.temp, entries)
    ensures Holds(u, m.temp + ["arco.app"], m.next)
  {
    ApartSymmetric(m.backup, m.temp);
    HoldsElsewhere(t, u, m.backup, m.temp, Extracted(m.temp, entries, |entries|));
    SubTreeHolds(u, m.temp, Extracted(m.temp, entries, |entries|), ["arco.app"]);
  }

  lemma FirstRename(m: Update, s: Tree, n: nat, h: seq<Tree>, t: Tree)
    requires Places(m) && SoundSince(m, s, n, h) && n <= |h| && At(m, Before, t) && Untouched(m, s, t)
    requires Holds(t, m.temp + ["arco.app"], m.next)
    ensures var u := Moved(t, m.app, m.backup);
            && SoundSince(m, s, n, h + [u]) && At(m, Aside, u) && Untouched(m, s, u)
            && Holds(u, m.temp + ["arco.app"], m.next)
  {
    var u := Moved(t, m.app, m.backup);
    MovedHolds(t, m.app, m.backup, m.now);
    assert At(m, Aside, u);
    MovedElsewhere(t, m.app, m.backup, m.temp + ["arco.app"], m.next);
    assert Sound(m, s, u);
  }

  lemma MovedElsewhere(t: Tree, src: Path, dst: Path, p: Path, b: Tree)
    requires Apart(src, p) && Apart(dst, p) && Holds(t, p, b)
    ensures Holds(Moved(t, src, dst), p, b)
  {
  }

  lemma BelowIsUnder(p: Path, q: Path)
    ensures forall r :: Under(p + q, r) ==> Under(p, r)
  {
    forall r | Under(p + q, r) ensures Under(p, r) {
      assert p <= p + q;
    }
  }

  lemma MovedUntouched(m: Update, s: Tree, t: Tree, src: Path, dst: Path)
    requires Untouched(m, s, t)
    requires forall r :: Under(src, r) || Under(dst, r) ==> Under(m.app, r) || Under(m.backup, r) || Under(m.temp, r)
    ensures Untouched(m, s, Moved(t, src, dst))
  {
  }

  lemma SecondRename(m: Update, s: Tree, n: nat, h: seq<Tree>, t: Tree)
    requires Places(m) && SoundSince(m, s, n, h) && n <= |h| && At(m, Aside, t) && Untouched(m, s, t)
    requires Holds(t, m.temp + ["arco.app"], m.next) && m.temp + ["arco.app"] in t
    ensures var u := Moved(t, m.temp + ["arco.app"], m.app);
            SoundSince(m, s, n, h + [u]) && At(m, Replaced, u) && Untouched(m, s, u)
  {
    var src := m.temp + ["arco.app"];
    hide Moved;
    hide Holds;
    hide Nothing;
    hide Untouched;
    BelowIsUnder(m.temp, ["arco.app"]);
    RootThere(t, src, m.next);
    MovedHolds(t, src, m.app, m.next);
    MovedElsewhere(t, src, m.app, m.backup, m.now);
    MovedUntouched(m, s, t, src, m.app);
    assert At(m, Replaced, Moved(t, src, m.app));
  }

  lemma FreshHolds(t: Tree, p: Path)
    requires Nothing(t, p)
    ensures Holds(t[p := Directory], p, EMPTY)
  {
    assert p + [] == p;
    forall r | r in t[p := Directory] && Under(p, r) ensures r[|p|..] in EMPTY {
      assert r == p;
    }
  }

  /** extractAppBundle, with the deferred removal of the temporary directory.  At every moment the
      application is where it was, or has been moved aside, or has been replaced and the former one is
      in the backup; nothing but these and the temporary directory is ever touched.  Nothing outside the
      temporary directory changes at any moment unless the archive can be extracted and holds a bundle
      or the look for it fails.  On a steady disk the stage that is reached follows from the archive. */
  method ExtractAppBundle(disk: Disk, parent: Path, name: string, digits: string, entries: seq<ZipEntry>,
                          statFails: bool, ghost now: Tree)
    returns (r: Result, ghost m: Update, ghost stage: Stage)
    requires disk.Recorded() && IsPath(parent + [name]) && AllDigits(digits)
    requires Holds(disk.tree, parent + [name], now) && [] in now
    modifies disk
    ensures (m.app, m.backup, m.temp) == (parent + [name], parent + [name + ".old"], parent + ["arco-update-" + digits])
    ensures m.now == now && m.next == BundleOf(m.temp, entries)
    ensures disk.Recorded() && old(disk.seen) <= disk.seen
    ensures SoundSince(m, old(disk.tree), |old(disk.seen)|, disk.seen)
    ensures At(m, stage, disk.tree) && Untouched(m, old(disk.tree), disk.tree)
    ensures r.Done? ==> stage.Replaced?
    ensures r.Failed? ==> !stage.Replaced?
    ensures !Supplied(m.temp, entries, statFails) ==> stage.Before? && disk.Within(m.temp)
    ensures !Nothing(old(disk.tree), m.temp) ==> disk.tree == old(disk.tree) && disk.seen == old(disk.seen)
    ensures disk.steady && Nothing(old(disk.tree), m.temp) ==> Nothing(disk.tree, m.temp)
    ensures disk.steady && Nothing(old(disk.tree), m.temp) ==> (r.Done? <==> [] in m.next)
    ensures disk.steady && Nothing(old(disk.tree), m.temp) && Supplied(m.temp, entries, statFails) ==>
              stage == if [] in m.next then Replaced else Aside
  {
    hide Confined;
    hide At;
    hide Untouched;
    hide Places;
    hide SoundSince;
    hide Holds;
    hide Nothing;
    hide Supplied;
    hide BundleOf;
    var temp := parent + [PREFIX + digits];
    m := Update(parent + [name], parent + [name + OLD], temp, now, BundleOf(temp, entries));
    stage := Before;
    ghost var h, t := disk.seen, disk.tree;
    ghost var n := |h|;
    Start(m, t, h);
    BundleIsSupplied(temp, entries, statFails);
    r := disk.MkdirTemp(parent, PREFIX + digits);
    if !r.Done? {
      ConfinedRefl(h, t, temp);
      return;
    }
    TempIsNew(t, parent, name, PREFIX + digits, now);
    PlacesApart(m, parent, name, digits);
    FreshHolds(t, temp);
    SoundStep(m, stage, t, n, h, t, disk.seen, disk.tree, temp);
    ConfinedGrows(h, t, disk.seen, disk.tree, temp);
    DigitsAreName(parent, name, digits);
    ghost var j, s := disk.seen, disk.tree;
    r, stage := Replace(disk, parent + [name], parent + [name + OLD], temp, m, entries, statFails, t, n);
    ghost var k, u := disk.seen, disk.tree;
    if !Supplied(temp, entries, statFails) {
      ConfinedTrans(h, t, j, s, k, u, temp);
    }
    if r.Stopped? { return; }
    assert h <= k;
    var removed := disk.RemoveAll(temp);
    SoundStep(m, stage, t, n, k, u, disk.seen, disk.tree, temp);
    ConfinedGrows(k, u, disk.seen, disk.tree, temp);
    if !Supplied(temp, entries, statFails) {
      ConfinedTrans(h, t, k, u, disk.seen, disk.tree, temp);
    }
    if removed.Stopped? { r := Stopped; }
  }

  lemma BundleIsSupplied(temp: Path, entries: seq<ZipEntry>, statFails: bool)
    ensures [] in BundleOf(temp, entries) ==> Supplied(temp, entries, statFails)
  {
  }

  lemma Start(m: Update, t: Tree, h: seq<Tree>)
    requires Holds(t, m.app, m.now)
    ensures SoundSince(m, t, |h|, h) && At(m, Before, t) && Untouched(m, t, t)
  {
  }

  lemma TempIsNew(t: Tree, parent: Path, name: string, temp: string, now: Tree)
    requires Holds(t, parent + [name], now) && [] in now && Nothing(t, parent + [temp])
    ensures name != temp
  {
    assert (parent + [name]) + [] == parent + [name];
    assert Under(parent + [name], parent + [name]);
  }

  lemma DigitsAreName(parent: Path, name: string, digits: string)
    requires IsPath(parent + [name]) && AllDigits(digits)
    ensures IsPath(parent + [PREFIX + digits]) && parent + [PREFIX + digits] != []
  {
    assert forall k :: 0 <= k < |parent| ==> parent[k] == (parent + [name])[k];
    assert PREFIX[0] == 'a' && (PREFIX + digits)[0] == 'a';
  }

  /** cleanupOldAppBundles; `statFails` when os.Stat of the backup fails although it is there. */
  method CleanupOldAppBundles(disk: Disk, parent: Path, name: string, statFails: bool) returns (r: Result)
    requires disk.Recorded()
    modifies disk
    ensures disk.Recorded() && disk.Within(parent + [name + OLD])
    ensures disk.steady ==> !r.Stopped?
    ensures statFails || parent + [name + OLD] !in old(disk.tree) ==> disk.tree == old(disk.tree) && disk.seen == old(disk.seen)
    ensures disk.steady && !statFails && parent + [name + OLD] in old(disk.tree) ==> Nothing(disk.tree, parent + [name + OLD])
  {
    hide Confined;
    ConfinedRefl(disk.seen, disk.tree, parent + [name + OLD]);
    if !statFails && parent + [name + OLD] in disk.tree {
      r := disk.RemoveAll(parent + [name + OLD]);
    } else {
      r := Done;
    }
  }

  // ---------------------------------------------------------------- every start of the application

  datatype Release = Release(entries: seq<ZipEntry>, digits: string, statFails: bool)

  /** One start: whether the look for a backup fails, and the newer release it finds, if any. */
  datatype Launch = Launch(statFails: bool, update: Option<Release>)

  ghost predicate Released(parent: Path, launches: seq<Launch>, b: Tree) {
    exists i :: 0 <= i < |launches| && launches[i].update.Some? && b == BundleIn(parent, launches[i].update.value)
  }

  function TempOf(parent: Path, r: Release): Path {
    parent + [PREFIX + r.digits]
  }

  ghost function BundleIn(parent: Path, r: Release): Tree {
    BundleOf(TempOf(parent, r), r.entries)
  }

  /** The start finds a release that can be extracted, and that holds a bundle or is not checked for it. */
  ghost predicate Supplies(parent: Path, launch: Launch) {
    && launch.update.Some?
    && Supplied(TempOf(parent, launch.update.value), launch.update.value.entries, launch.update.value.statFails)
  }

  ghost predicate HasBundleIn(parent: Path, launch: Launch) {
    launch.update.Some? && [] in BundleIn(parent, launch.update.value)
  }

  /** The directory the start would extract to is not taken. */
  ghost predicate TempIsFree(parent: Path, launch: Launch, t: Tree) {
    launch.update.Some? ==> Nothing(t, TempOf(parent, launch.update.value))
  }

  ghost predicate SafeSince(app: Path, backup: Path, good: set<Tree>, n: nat, seen: seq<Tree>) {
    forall i :: n <= i < |seen| ==> Safe(seen[i], app, backup, good)
  }

  ghost predicate SameUnder(t: Tree, u: Tree, root: Path) {
    forall p :: Under(root, p) ==> (p in t <==> p in u) && (p in t ==> t[p] == u[p])
  }

  ghost predicate SameUnderSince(t: Tree, root: Path, n: nat, seen: seq<Tree>) {
    forall i :: n <= i < |seen| ==> SameUnder(seen[i], t, root)
  }

  /** Only the application and its backup may differ. */
  ghost predicate NoTrace(t: Tree, u: Tree, app: Path, backup: Path) {
    forall p :: !Under(app, p) && !Under(backup, p) ==> (p in t <==> p in u) && (p in t ==> t[p] == u[p])
  }

  /** The bundle of the last release that has one, or the one there was at first. */
  ghost function Latest(parent: Path, first: Tree, launches: seq<Launch>): Tree {
    if launches == [] then first
    else
      var last := launches[|launches| - 1];
      if HasBundleIn(parent, last) then BundleIn(parent, last.update.value)
      else Latest(parent, first, launches[..|launches| - 1])
  }

  /** No extraction directory is taken, and a release without a bundle is never let pass. */
  ghost predicate Undisturbed(parent: Path, launches: seq<Launch>, t: Tree) {
    forall i :: 0 <= i < |launches| ==>
      TempIsFree(parent, launches[i], t) && (Supplies(parent, launches[i]) ==> HasBundleIn(parent, launches[i]))
  }

  /** Whatever fails and wherever the process stops, over any number of starts: at every moment the
      application's path holds a complete bundle - the first one or the whole content of a release - or
      it holds nothing at all and the backup holds a complete one.  It holds nothing only when a release
      was found that holds a bundle, or whose bundle could not be looked for.  When nothing disturbs the
      starts, the application is in the end the latest release. */
  method Run(disk: Disk, parent: Path, name: string, launches: seq<Launch>, first: Tree)
    returns (ghost good: set<Tree>)
    requires disk.Recorded() && IsPath(parent + [name])
    requires Holds(disk.tree, parent + [name], first) && [] in first
    requires forall i :: 0 <= i < |launches| && launches[i].update.Some? ==> AllDigits(launches[i].update.value.digits)
    modifies disk
    ensures disk.Recorded() && old(disk.seen) <= disk.seen
    ensures SafeSince(parent + [name], parent + [name + OLD], good, |old(disk.seen)|, disk.seen)
    ensures Safe(disk.tree, parent + [name], parent + [name + OLD], good)
    ensures forall b :: b in good ==> b == first || Released(parent, launches, b)
    ensures forall i :: |old(disk.seen)| <= i < |disk.seen| && Nothing(disk.seen[i], parent + [name]) ==>
              exists k :: 0 <= k < |launches| && Supplies(parent, launches[k])
    ensures disk.steady && Undisturbed(parent, launches, old(disk.tree)) ==>
              && Holds(disk.tree, parent + [name], Latest(parent, first, launches))
              && NoTrace(old(disk.tree), disk.tree, parent + [name], parent + [name + OLD])
  {
    hide Safe;
    hide SafeSince;
    hide Supplies;
    hide TempIsFree;
    hide Holds;
    hide Nothing;
    hide NoTrace;
    hide SameUnderSince;
    hide HasBundleIn;
    good := {first};
    ghost var n, s := |disk.seen|, disk.tree;
    ghost var app, backup := parent + [name], parent + [name + OLD];
    FirstIsSafe(disk.tree, disk.seen, app, backup, first);
    RootHolds(s, app, first);
    NoTraceRefl(s, app, backup);
    NotYet(s, app, disk.seen);
    ghost var supplied := false;
    var i := 0;
    while i < |launches|
      invariant 0 <= i <= |launches|
      invariant disk.Recorded() && old(disk.seen) <= disk.seen
      invariant SafeSince(app, backup, good, n, disk.seen)
      invariant Safe(disk.tree, app, backup, good)
      invariant forall b :: b in good ==> b == first || Released(parent, launches, b)
      invariant supplied ==> exists k :: 0 <= k < i && Supplies(parent, launches[k])
      invariant !supplied ==> SameUnderSince(s, app, n, disk.seen) && SameUnder(disk.tree, s, app)
      invariant disk.steady && Undisturbed(parent, launches, s) ==>
                  Holds(disk.tree, app, Latest(parent, first, launches[..i])) && NoTrace(s, disk.tree, app, backup)
    {
      ghost var h, t := disk.seen, disk.tree;
      good := Launched(disk, parent, name, launches[i], n, good);
      if Supplies(parent, launches[i]) {
        supplied := true;
      } else if !supplied {
        SameUnderGrows(s, t, disk.tree, app, n, h, disk.seen);
      }
      if disk.steady && Undisturbed(parent, launches, s) {
        LatestIsRooted(parent, first, launches[..i]);
        RootHolds(t, app, Latest(parent, first, launches[..i]));
        OneMore(parent, name, first, launches, i, s, t, disk.tree);
      }
      i := i + 1;
    }
    assert launches[..|launches|] == launches;
    if !supplied {
      NeverGone(s, app, first, n, disk.seen);
    }
  }

  /** Starts are undisturbed when no directory they would extract to is taken and no look for a bundle
      fails. */
  lemma UndisturbedWhen(parent: Path, launches: seq<Launch>, t: Tree)
    requires forall i :: 0 <= i < |launches| && launches[i].update.Some? ==>
               !launches[i].update.value.statFails && Nothing(t, TempOf(parent, launches[i].update.value))
    ensures Undisturbed(parent, launches, t)
  {
  }

  lemma NotYet(t: Tree, app: Path, seen: seq<Tree>)
    ensures SameUnderSince(t, app, |seen|, seen) && SameUnder(t, t, app)
  {
  }

  lemma NoTraceRefl(t: Tree, app: Path, backup: Path)
    ensures NoTrace(t, t, app, backup)
  {
  }

  lemma SameUnderGrows(s: Tree, t: Tree, u: Tree, app: Path, n: nat, h: seq<Tree>, k: seq<Tree>)
    requires SameUnderSince(s, app, n, h) && SameUnder(t, s, app) && h <= k && n <= |h|
    requires SameUnderSince(t, app, |h|, k) && SameUnder(u, t, app)
    ensures SameUnderSince(s, app, n, k) && SameUnder(u, s, app)
  {
    hide SameUnder;
    SameUnderTrans(s, t, u, app);
    forall i | n <= i < |k| ensures SameUnder(k[i], s, app) {
      if i < |h| {
        assert k[i] == h[i];
      } else {
        SameUnderTrans(s, t, k[i], app);
      }
    }
  }

  lemma SameUnderTrans(s: Tree, t: Tree, u: Tree, root: Path)
    requires SameUnder(t, s, root) && SameUnder(u, t, root)
    ensures SameUnder(u, s, root)
  {
  }

  lemma NeverGone(s: Tree, app: Path, first: Tree, n: nat, seen: seq<Tree>)
    requires Holds(s, app, first) && [] in first && SameUnderSince(s, app, n, seen)
    ensures forall i :: n <= i < |seen| ==> !Nothing(seen[i], app)
  {
    assert app + [] == app && Under(app, app);
  }

  lemma {:induction false} LatestIsRooted(parent: Path, first: Tree, launches: seq<Launch>)
    requires [] in first
    ensures [] in Latest(parent, first, launches)
    decreases |launches|
  {
    if launches != [] {
      LatestIsRooted(parent, first, launches[..|launches| - 1]);
    }
  }

  /** An undisturbed start on a steady disk, in a run. */
  lemma OneMore(parent: Path, name: string, first: Tree, launches: seq<Launch>, i: nat, s: Tree, t: Tree, u: Tree)
    requires i < |launches| && [] in first && Undisturbed(parent, launches, s) && parent + [name] in s
    requires launches[i].update.Some? ==> AllDigits(launches[i].update.value.digits)
    requires Holds(t, parent + [name], Latest(parent, first, launches[..i]))
    requires NoTrace(s, t, parent + [name], parent + [name + OLD])
    requires TempIsFree(parent, launches[i], t) ==> NoTrace(t, u, parent + [name], parent + [name + OLD])
    requires TempIsFree(parent, launches[i], t) && HasBundleIn(parent, launches[i]) ==>
               Holds(u, parent + [name], BundleIn(parent, launches[i].update.value))
    requires !Supplies(parent, launches[i]) ==> SameUnder(u, t, parent + [name])
    ensures Holds(u, parent + [name], Latest(parent, first, launches[..i + 1]))
    ensures NoTrace(s, u, parent + [name], parent + [name + OLD])
  {
    hide Supplies;
    hide HasBundleIn;
    hide BundleIn;
    hide Holds;
    hide NoTrace;
    hide SameUnder;
    var app, backup := parent + [name], parent + [name + OLD];
    assert launches[..i + 1][..i] == launches[..i];
    if launches[i].update.Some? {
      StillFree(parent, name, launches[i].update.value, s, t);
    }
    NoTraceTrans(s, t, u, app, backup);
    if !HasBundleIn(parent, launches[i]) {
      SameUnderHolds(t, u, app, Latest(parent, first, launches[..i]));
    }
  }

  lemma NoTraceTrans(s: Tree, t: Tree, u: Tree, app: Path, backup: Path)
    requires NoTrace(s, t, app, backup) && NoTrace(t, u, app, backup)
    ensures NoTrace(s, u, app, backup)
  {
  }

  lemma SameUnderHolds(t: Tree, u: Tree, p: Path, b: Tree)
    requires SameUnder(u, t, p) && Holds(t, p, b)
    ensures Holds(u, p, b)
  {
    assert forall q :: Under(p, p + q);
  }

  lemma RootHolds(t: Tree, p: Path, b: Tree)
    requires Holds(t, p, b) && [] in b
    ensures p in t
  {
    assert p + [] == p;
  }

  lemma StillFree(parent: Path, name: string, r: Release, s: Tree, t: Tree)
    requires NoTrace(s, t, parent + [name], parent + [name + OLD]) && parent + [name] in s
    requires Nothing(s, TempOf(parent, r)) && AllDigits(r.digits)
    ensures Nothing(t, TempOf(parent, r))
  {
    hide NoTrace;
    var app, temp := parent + [name], TempOf(parent, r);
    assert Under(app, app);
    var m := Update(app, parent + [name + OLD], temp, EMPTY, EMPTY);
    PlacesApart(m, parent, name, r.digits);
    StaysFree(m, s, t);
  }

  lemma StaysFree(m: Update, s: Tree, t: Tree)
    requires Places(m) && NoTrace(s, t, m.app, m.backup) && Nothing(s, m.temp)
    ensures Nothing(t, m.temp)
  {
  }

  lemma FirstIsSafe(t: Tree, seen: seq<Tree>, app: Path, backup: Path, first: Tree)
    requires Holds(t, app, first) && [] in first
    ensures Safe(t, app, backup, {first}) && SafeSince(app, backup, {first}, |seen|, seen)
  {
  }

  lemma Present(t: Tree, app: Path, backup: Path, good: set<Tree>) returns (b: Tree)
    requires Safe(t, app, backup, good) && app in t
    ensures b in good && [] in b && Holds(t, app, b) && !Nothing(t, app)
  {
    assert Under(app, app);
    b :| b in good && [] in b && Holds(t, app, b);
  }

  /** The clean-up removes a backup only while the application is there. */
  lemma CleanupIsSafe(parent: Path, name: string, now: Tree, good: set<Tree>, n: nat,
                      h: seq<Tree>, t: Tree, k: seq<Tree>, u: Tree)
    requires SafeSince(parent + [name], parent + [name + OLD], good, n, h) && n <= |h|
    requires Confined(h, t, k, u, parent + [name + OLD])
    requires Holds(t, parent + [name], now) && [] in now && now in good
    ensures SafeSince(parent + [name], parent + [name + OLD], good, n, k)
    ensures Safe(u, parent + [name], parent + [name + OLD], good) && Holds(u, parent + [name], now)
  {
    hide Holds;
    var app, backup := parent + [name], parent + [name + OLD];
    assert |name + OLD| != |name|;
    SiblingsApart(parent, name, name + OLD);
    HoldsElsewhere(t, u, backup, app, now);
    forall i | n <= i < |k| ensures Safe(k[i], app, backup, good) {
      if i < |h| {
        assert k[i] == h[i];
      } else {
        HoldsElsewhere(t, k[i], backup, app, now);
      }
    }
  }

  lemma StageIsSafe(m: Update, stage: Stage, t: Tree, good: set<Tree>)
    requires At(m, stage, t) && m.now in good && m.next in good && [] in m.now
    ensures Safe(t, m.app, m.backup, good)
  {
  }

  lemma SafeGrows(app: Path, backup: Path, good: set<Tree>, more: set<Tree>, t: Tree)
    requires Safe(t, app, backup, good) && good <= more
    ensures Safe(t, app, backup, more)
  {
  }

  lemma UpdateIsSafe(m: Update, stage: Stage, s: Tree, good: set<Tree>, n: nat, h: seq<Tree>, k: seq<Tree>, u: Tree)
    requires SafeSince(m.app, m.backup, good, n, h) && n <= |h| && h <= k
    requires SoundSince(m, s, |h|, k) && At(m, stage, u) && m.now in good && [] in m.now
    ensures SafeSince(m.app, m.backup, good + {m.next}, n, k) && Safe(u, m.app, m.backup, good + {m.next})
  {
    hide Safe;
    hide At;
    hide Untouched;
    forall i | n <= i < |k| ensures Safe(k[i], m.app, m.backup, good + {m.next}) {
      if i < |h| {
        assert k[i] == h[i];
        SafeGrows(m.app, m.backup, good, good + {m.next}, k[i]);
      } else {
        assert Sound(m, s, k[i]);
        var stage' :| At(m, stage', k[i]);
        StageIsSafe(m, stage', k[i], good + {m.next});
      }
    }
    StageIsSafe(m, stage, u, good + {m.next});
  }

  /** One start; it is only possible while there is an application. */
  method Launched(disk: Disk, parent: Path, name: string, launch: Launch, ghost n: nat, ghost good0: set<Tree>)
    returns (ghost good: set<Tree>)
    requires disk.Recorded() && IsPath(parent + [name]) && n <= |disk.seen|
    requires SafeSince(parent + [name], parent + [name + OLD], good0, n, disk.seen)
    requires Safe(disk.tree, parent + [name], parent + [name + OLD], good0)
    requires launch.update.Some? ==> AllDigits(launch.update.value.digits)
    modifies disk
    ensures disk.Recorded() && old(disk.seen) <= disk.seen
    ensures SafeSince(parent + [name], parent + [name + OLD], good, n, disk.seen)
    ensures Safe(disk.tree, parent + [name], parent + [name + OLD], good)
    ensures good == good0 || (launch.update.Some? && good == good0 + {BundleIn(parent, launch.update.value)})
    ensures Nothing(old(disk.tree), parent + [name]) ==> disk.tree == old(disk.tree) && disk.seen == old(disk.seen)
    ensures !Supplies(parent, launch) ==>
              && SameUnderSince(old(disk.tree), parent + [name], |old(disk.seen)|, disk.seen)
              && SameUnder(disk.tree, old(disk.tree), parent + [name])
    ensures disk.steady && TempIsFree(parent, launch, old(disk.tree)) ==>
              NoTrace(old(disk.tree), disk.tree, parent + [name], parent + [name + OLD])
    ensures disk.steady && TempIsFree(parent, launch, old(disk.tree)) && parent + [name] in old(disk.tree) && HasBundleIn(parent, launch) ==>
              && Holds(disk.tree, parent + [name], BundleIn(parent, launch.update.value))
              && forall b :: Holds(old(disk.tree), parent + [name], b) ==> Holds(disk.tree, parent + [name + OLD], b)
    ensures disk.steady && !Supplies(parent, launch) && !launch.statFails &&
            parent + [name] in old(disk.tree) && parent + [name + OLD] in old(disk.tree) ==>
              Nothing(disk.tree, parent + [name + OLD])
  {
    hide Confined;
    hide SafeSince;
    hide At;
    hide Untouched;
    hide SoundSince;
    hide Supplied;
    hide Holds;
    hide Nothing;
    hide NoTrace;
    hide SameUnder;
    hide SameUnderSince;
    good := good0;
    var app := parent + [name];
    ghost var s, backup := disk.tree, parent + [name + OLD];
    NoTraceRefl(s, app, backup);
    NotYet(s, app, disk.seen);
    if app !in disk.tree {
      return;
    }
    ghost var now := Present(disk.tree, app, backup, good0);
    ghost var h, t := disk.seen, disk.tree;
    var r := CleanupOldAppBundles(disk, parent, name, launch.statFails);
    CleanupIsSafe(parent, name, now, good0, n, h, t, disk.seen, disk.tree);
    ConfinedGrows(h, t, disk.seen, disk.tree, backup);
    CleanupIsAside(parent, name, launch, h, s, disk.seen, disk.tree);
    if r.Stopped? || launch.update.None? {
      return;
    }
    var u := launch.update.value;
    h, t := disk.seen, disk.tree;
    ghost var m, stage;
    r, m, stage := ExtractAppBundle(disk, parent, name, u.digits, u.entries, u.statFails, now);
    good := good0 + {m.next};
    UpdateIsSafe(m, stage, t, good0, n, h, disk.seen, disk.tree);
    BundleIsSupplied(m.temp, u.entries, u.statFails);
    if !Supplied(m.temp, u.entries, u.statFails) {
      Elsewhere(parent, name, u.digits, now, h, t, disk.seen, disk.tree);
      SameUnderGrows(s, t, disk.tree, app, |old(disk.seen)|, h, disk.seen);
    }
    if disk.steady && Nothing(t, m.temp) {
      LeavesNoTrace(m, t, disk.tree);
      NoTraceTrans(s, t, disk.tree, app, backup);
      if stage.Replaced? {
        ReplacedShows(m, s, t, disk.tree);
      }
    }
  }

  /** The clean-up leaves the application and the directory for the extraction alone. */
  lemma CleanupIsAside(parent: Path, name: string, launch: Launch, h: seq<Tree>, t: Tree, k: seq<Tree>, u: Tree)
    requires Confined(h, t, k, u, parent + [name + OLD])
    requires launch.update.Some? ==> AllDigits(launch.update.value.digits)
    ensures SameUnderSince(t, parent + [name], |h|, k) && SameUnder(u, t, parent + [name])
    ensures NoTrace(t, u, parent + [name], parent + [name + OLD])
    ensures TempIsFree(parent, launch, t) ==> TempIsFree(parent, launch, u)
  {
    assert |name + OLD| != |name|;
    SiblingsApart(parent, name, name + OLD);
    if launch.update.Some? {
      var x, y := name + OLD, PREFIX + launch.update.value.digits;
      assert x[|x| - 1] == 'd' && y[|y| - 1] != 'd';
      SiblingsApart(parent, x, y);
    }
  }

  lemma HoldsOnce(t: Tree, p: Path, b: Tree, c: Tree)
    requires Holds(t, p, b) && Holds(t, p, c)
    ensures b == c
  {
    forall q | q in b ensures q in c && b[q] == c[q] {
      assert (p + q)[|p|..] == q && Under(p, p + q);
    }
    forall q | q in c ensures q in b {
      assert (p + q)[|p|..] == q && Under(p, p + q);
    }
  }

  /** An update that changes only its temporary directory leaves the application and the backup alone. */
  lemma Elsewhere(parent: Path, name: string, digits: string, now: Tree, h: seq<Tree>, t: Tree, k: seq<Tree>, u: Tree)
    requires Holds(t, parent + [name], now) && [] in now && AllDigits(digits)
    requires Confined(h, t, k, u, parent + [PREFIX + digits])
    requires !Nothing(t, parent + [PREFIX + digits]) ==> t == u && h == k
    ensures h <= k && SameUnderSince(t, parent + [name], |h|, k) && SameUnder(u, t, parent + [name])
    ensures Nothing(t, parent + [name + OLD]) ==> Nothing(u, parent + [name + OLD])
  {
    hide SameOutside;
    hide Nothing;
    hide Holds;
    hide SameUnder;
    var app, temp := parent + [name], parent + [PREFIX + digits];
    if Nothing(t, temp) {
      TempIsNew(t, parent, name, PREFIX + digits, now);
      var m := Update(app, parent + [name + OLD], temp, now, now);
      PlacesApart(m, parent, name, digits);
      HoldsElsewhere(t, u, temp, m.backup, now);
      SameElsewhere(t, u, temp, app);
      forall i | |h| <= i < |k| ensures SameUnder(k[i], t, app) {
        SameElsewhere(t, k[i], temp, app);
      }
    } else {
      SameUnderRefl(t, app);
    }
  }

  lemma SameUnderRefl(t: Tree, p: Path)
    ensures SameUnder(t, t, p)
  {
  }

  lemma SameElsewhere(t: Tree, u: Tree, root: Path, p: Path)
    requires SameOutside(u, t, root) && Apart(p, root)
    ensures SameUnder(u, t, p)
  {
  }

  lemma LeavesNoTrace(m: Update, t: Tree, u: Tree)
    requires Untouched(m, t, u) && Nothing(t, m.temp) && Nothing(u, m.temp)
    ensures NoTrace(t, u, m.app, m.backup)
  {
  }

  lemma ReplacedShows(m: Update, s: Tree, t: Tree, u: Tree)
    requires At(m, Replaced, u) && Holds(t, m.app, m.now) && SameUnder(t, s, m.app)
    ensures Holds(u, m.app, m.next)
    ensures forall b :: Holds(s, m.app, b) ==> Holds(u, m.backup, b)
  {
    hide Holds;
    hide SameUnder;
    forall b | Holds(s, m.app, b) ensures Holds(u, m.backup, b) {
      SameUnderHolds(s, t, m.app, b);
      HoldsOnce(t, m.app, b, m.now);
    }
  }

  /** Once the application is gone, with its only copy in the backup, no number of starts changes
      anything: nothing can be started that would move the backup into place. */
  method GoneForGood(disk: Disk, parent: Path, name: string, launches: seq<Launch>, ghost good: set<Tree>)
    requires disk.Recorded() && IsPath(parent + [name])
    requires Nothing(disk.tree, parent + [name]) && Complete(disk.tree, parent + [name + OLD], good)
    requires forall i :: 0 <= i < |launches| && launches[i].update.Some? ==> AllDigits(launches[i].update.value.digits)
    modifies disk
    ensures disk.tree == old(disk.tree) && disk.seen == old(disk.seen)
  {
    ghost var n := |disk.seen|;
    var i := 0;
    while i < |launches|
      invariant 0 <= i <= |launches|
      invariant disk.tree == old(disk.tree) && disk.seen == old(disk.seen)
    {
      ghost var more := Launched(disk, parent, name, launches[i], n, good);
      i := i + 1;
    }
  }
}
