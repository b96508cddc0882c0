/** Rooted slash-separated paths: as texts, the way the Go program handles them, and as lists of
    names.  The lemmas say that joining, cleaning, taking the parent and comparing prefixes of texts
    (path/filepath and strings in Go) do to the lists what one expects. */
module Paths {

  type Path = seq<string>

  ghost predicate IsName(c: string) {
    c != "" && c != "." && c != ".." && '/' !in c
  }

  ghost predicate IsPath(p: Path) {
    forall k :: 0 <= k < |p| ==> IsName(p[k])
  }

  /** The path as text; only the root ends in a slash. */
  function Text(p: Path): string {
    if p == [] then "/" else Render(p)
  }

  function Render(p: Path): string {
    if p == [] then "" else "/" + p[0] + Render(p[1..])
  }

  /** The stretches of `s` between slashes. */
  function Split(s: string): (r: seq<string>)
    ensures |r| > 0
    ensures forall k :: 0 <= k < |r| ==> '/' !in r[k]
  {
    if s == "" then [""]
    else
      var rest := Split(s[1..]);
      if s[0] == '/' then [""] + rest else [[s[0]] + rest[0]] + rest[1..]
  }

  function Push(stack: Path, c: string): Path {
    if c == "" || c == "." then stack
    else if c == ".." then if stack == [] then [] else stack[..|stack| - 1]
    else stack + [c]
  }

  /** Walks from `stack` along the components: "." and empty ones stay, ".." goes up. */
  function Walk(stack: Path, components: seq<string>): (r: Path)
    ensures IsPath(stack) && (forall k :: 0 <= k < |components| ==> '/' !in components[k]) ==> IsPath(r)
    decreases |components|
  {
    if components == [] then stack else Walk(Push(stack, components[0]), components[1..])
  }

  /** filepath.Clean of a rooted path. */
  function Clean(s: string): string {
    Text(Walk([], Split(s)))
  }

  /** filepath.Join of a rooted directory and a relative name. */
  function Join(directory: string, name: string): string {
    Clean(directory + "/" + name)
  }

  function LastSlash(s: string): (k: int)
    ensures -1 <= k < |s|
    ensures k >= 0 ==> s[k] == '/'
    ensures forall j :: k < j < |s| ==> s[j] != '/'
  {
    if s == "" then -1 else if s[|s| - 1] == '/' then |s| - 1 else LastSlash(s[..|s| - 1])
  }

  /** filepath.Dir of a rooted path. */
  function Dir(s: string): string {
    Clean(s[..LastSlash(s) + 1])
  }

  predicate HasPrefix(s: string, prefix: string) {
    prefix <= s
  }

  predicate HasSuffix(s: string, suffix: string) {
    |suffix| <= |s| && s[|s| - |suffix|..] == suffix
  }

  // ---------------------------------------------------------------- splitting and walking

  lemma {:induction false} SplitSingle(c: string)
    requires '/' !in c
    ensures Split(c) == [c]
  {
    if c != "" {
      SplitSingle(c[1..]);
      assert [c[0]] + c[1..] == c;
    }
  }

  lemma {:induction false} SplitAppend(a: string, b: string)
    ensures Split(a + "/" + b) == Split(a) + Split(b)
  {
    var s := a + "/" + b;
    if a == "" {
      assert s[1..] == b;
    } else {
      assert s[1..] == a[1..] + "/" + b;
      SplitAppend(a[1..], b);
    }
  }

  lemma {:induction false} WalkAppend(stack: Path, x: seq<string>, y: seq<string>)
    ensures Walk(stack, x + y) == Walk(Walk(stack, x), y)
    decreases |x|
  {
    if x == [] {
      assert x + y == y;
    } else {
      assert (x + y)[1..] == x[1..] + y;
      WalkAppend(Push(stack, x[0]), x[1..], y);
    }
  }

  lemma {:induction false} WalkNames(stack: Path, p: Path)
    requires IsPath(p)
    ensures Walk(stack, p) == stack + p
    decreases |p|
  {
    if p == [] {
      assert stack + p == stack;
    } else {
      assert IsName(p[0]);
      WalkNames(stack + [p[0]], p[1..]);
      assert stack + [p[0]] + p[1..] == stack + p;
    }
  }

  lemma {:induction false} RenderAppend(p: Path, q: Path)
    ensures Render(p + q) == Render(p) + Render(q)
  {
    if p == [] {
      assert p + q == q;
    } else {
      assert (p + q)[1..] == p[1..] + q;
      RenderAppend(p[1..], q);
      assert ("/" + p[0] + Render(p[1..])) + Render(q) == "/" + p[0] + (Render(p[1..]) + Render(q));
    }
  }

  lemma SplitSlash(a: string)
    ensures Split("/" + a) == [""] + Split(a)
  {
    assert ("/" + a)[1..] == a;
  }

  lemma SplitName(c: string, rest: string)
    requires '/' !in c
    ensures Split(c + "/" + rest) == [c] + Split(rest)
  {
    SplitSingle(c);
    SplitAppend(c, rest);
  }

  lemma {:induction false} SplitRender(p: Path)
    requires IsPath(p)
    ensures Split(Render(p)) == [""] + p
  {
    if p != [] {
      assert IsName(p[0]);
      var rest := p[1..];
      SplitRender(rest);
      var tail := p[0] + Render(rest);
      assert Render(p) == "/" + tail;
      SplitSlash(tail);
      hide Split;
      SplitTail(p[0], rest);
      assert [p[0]] + rest == p;
    }
  }

  lemma SameAfterFirst<T>(first: T, a: seq<T>, b: seq<T>)
    requires [first] + a == [first] + b
    ensures a == b
  {
    assert a == ([first] + a)[1..] && b == ([first] + b)[1..];
  }

  lemma Regroup<T>(a: seq<T>, b: seq<T>, c: seq<T>)
    ensures a + b + c == a + (b + c)
  {
  }

  lemma RenderCons(p: Path)
    requires p != []
    ensures Render(p) == "/" + (p[0] + Render(p[1..]))
  {
    Regroup("/", p[0], Render(p[1..]));
  }

  lemma SplitTail(c: string, rest: Path)
    requires '/' !in c && Split(Render(rest)) == [""] + rest
    ensures Split(c + Render(rest)) == [c] + rest
  {
    if rest == [] {
      SplitSingle(c);
      assert Render(rest) == "" && c + "" == c;
    } else {
      hide Split;
      hide Render;
      var tail := rest[0] + Render(rest[1..]);
      RenderCons(rest);
      SplitSlash(tail);
      SameAfterFirst("", Split(tail), rest);
      SplitName(c, tail);
      Regroup(c, "/", tail);
    }
  }

  lemma WalkStays(stack: Path, components: seq<string>)
    ensures Walk(stack, [""]) == stack
    ensures Walk(stack, [""] + components) == Walk(stack, components)
  {
    assert ([""] + components)[1..] == components;
  }

  lemma TextWalks(p: Path)
    requires IsPath(p)
    ensures Walk([], Split(Text(p))) == p && Clean(Text(p)) == Text(p)
  {
    if p != [] {
      SplitRender(p);
      WalkNames([], p);
      assert ([""] + p)[1..] == p;
      assert Walk([], [""] + p) == Walk([], p);
      assert [] + p == p;
    } else {
      assert Split("/") == [""] + Split("") == ["", ""];
      assert ["", ""][1..] == [""] && [""][1..] == [];
      assert Walk([], ["", ""]) == Walk([], [""]) == [];
    }
  }

  // ---------------------------------------------------------------- what the operations on texts mean

  /** Two paths with the same text are the same path. */
  lemma TextIsInjective(p: Path, q: Path)
    requires IsPath(p) && IsPath(q) && Text(p) == Text(q)
    ensures p == q
  {
    TextWalks(p);
    TextWalks(q);
  }

  lemma RootText(p: Path)
    requires IsPath(p)
    ensures Text(p) == "/" <==> p == []
    ensures Text(p) != "."
  {
    if p != [] {
      assert IsName(p[0]) && |Render(p)| == 1 + |p[0]| + |Render(p[1..])| && Render(p)[0] == '/';
    }
  }

  /** Joining a name to a directory walks from the directory along the name's components. */
  lemma JoinWalks(base: Path, name: string)
    requires IsPath(base)
    ensures Join(Text(base), name) == Text(Walk(base, Split(name)))
  {
    SplitAppend(Text(base), name);
    WalkAppend([], Split(Text(base)), Split(name));
    TextWalks(base);
  }

  /** The parent of a path is the path without its last name. */
  lemma DirIsParent(p: Path)
    requires IsPath(p) && p != []
    ensures Dir(Text(p)) == Text(p[..|p| - 1])
  {
    hide LastSlash;
    hide Render;
    hide Split;
    hide Walk;
    var parent := p[..|p| - 1];
    CutAtLastSlash(p);
    assert Render(parent) + "/" + "" == Render(parent) + "/";
    SplitAppend(Render(parent), "");
    SplitRender(parent);
    SplitSingle("");
    WalkAppend([], [""] + parent, [""]);
    WalkStays([], parent);
    WalkNames([], parent);
    WalkStays(parent, []);
    assert [] + parent == parent;
  }

  lemma CutAtLastSlash(p: Path)
    requires IsPath(p) && p != []
    ensures Text(p)[..LastSlash(Text(p)) + 1] == Render(p[..|p| - 1]) + "/"
  {
    var parent, last := p[..|p| - 1], p[|p| - 1];
    assert IsName(last) && p == parent + [last];
    RenderAppend(parent, [last]);
    RenderOne(last);
    hide Render;
    CutAfter(Render(parent), last);
  }

  lemma RenderOne(name: string)
    ensures Render([name]) == "/" + name
  {
    assert Render([]) == "" && [name][1..] == [] && "/" + name + "" == "/" + name;
  }

  lemma CutAfter(front: string, name: string)
    requires '/' !in name
    ensures var s := front + ("/" + name); s[..LastSlash(s) + 1] == front + "/"
  {
    hide LastSlash;
    var s := front + ("/" + name);
    assert forall j :: |front| < j < |s| ==> s[j] == name[j - |front| - 1];
    assert s[|front|] == '/';
    assert s[..|front| + 1] == front + "/";
  }

  /** The text of `p` begins with the text of `base` and a slash exactly when `p` lies strictly below
      `base`.  Without the slash this would be false: /a/bc begins with /a/b. */
  lemma PrefixIsBelow(base: Path, p: Path)
    requires IsPath(base) && IsPath(p) && base != []
    ensures HasPrefix(Text(p), Text(base) + "/") <==> base < p
  {
    if HasPrefix(Text(p), Text(base) + "/") {
      PrefixGoesBelow(base, p);
    }
    if base < p {
      var q := p[|base|..];
      assert p == base + q;
      RenderAppend(base, q);
      assert Render(q)[0] == '/';
    }
  }

  lemma PrefixGoesBelow(base: Path, p: Path)
    requires IsPath(base) && IsPath(p) && base != [] && HasPrefix(Text(p), Text(base) + "/")
    ensures base < p
  {
    hide Render;
    hide IsPath;
    LongText(base);
    var rest := Text(p)[|Text(base) + "/"|..];
    PrefixAndRest(Text(p), Text(base) + "/");
    RenderGoesBelow(base, p, rest);
  }

  lemma LongText(p: Path)
    requires IsPath(p) && p != []
    ensures |Text(p)| >= 2
  {
    assert IsName(p[0]);
  }

  lemma PrefixAndRest<T>(s: seq<T>, prefix: seq<T>)
    requires prefix <= s
    ensures s == prefix + s[|prefix|..]
  {
  }

  lemma RenderGoesBelow(base: Path, p: Path, rest: string)
    requires IsPath(base) && IsPath(p) && Render(p) == Render(base) + "/" + rest
    ensures base < p
  {
    hide Split;
    hide Render;
    hide IsPath;
    SplitRender(base);
    SplitRender(p);
    SplitAppend(Render(base), rest);
    var names := Split(rest);
    assert |names| > 0;
    Regroup([""], base, names);
    SameAfterFirst("", p, base + names);
  }

  /** A suffix without slashes is a suffix of the last name. */
  lemma SuffixIsOfLastName(p: Path, suffix: string)
    requires IsPath(p) && suffix != "" && '/' !in suffix
    ensures HasSuffix(Text(p), suffix) <==> p != [] && HasSuffix(p[|p| - 1], suffix)
  {
    if p == [] {
      SuffixOfAppend("", "", suffix);
      assert Text(p) == "" + "/" + "";
    } else {
      var parent, last := p[..|p| - 1], p[|p| - 1];
      assert p == parent + [last];
      RenderAppend(parent, [last]);
      assert Render([last]) == "/" + last + Render([]) == "/" + last;
      assert Text(p) == Render(parent) + "/" + last;
      SuffixOfAppend(Render(parent), last, suffix);
    }
  }

  lemma SuffixOfAppend(a: string, last: string, suffix: string)
    requires '/' !in suffix
    ensures HasSuffix(a + "/" + last, suffix) <==> HasSuffix(last, suffix)
  {
    var s, n := a + "/" + last, |suffix|;
    if n <= |last| {
      assert s[|s| - n..] == last[|last| - n..];
    } else if n <= |s| {
      assert s[|s| - n..][n - |last| - 1] == '/';
    }
  }

  // ---------------------------------------------------------------- the application bundle of a binary

  const APP := ".app"

  /** The first `k` names of the path form the path of a bundle. */
  predicate Bundle(p: Path, k: nat)
    requires k <= |p|
  {
    k > 0 && HasSuffix(p[k - 1], APP)
  }

  /** The innermost bundle on the way to the binary, or the binary itself when there is none. */
  ghost predicate Resolves(binary: Path, r: Path) {
    exists k: nat :: k <= |binary| && r == binary[..k] &&
      ((Bundle(binary, k) && forall j :: k < j <= |binary| ==> !Bundle(binary, j)) ||
       (k == |binary| && forall j :: 0 <= j <= |binary| ==> !Bundle(binary, j)))
  }

  /** resolveAppBundlePath. */
  method ResolveAppBundlePath(binaryPath: string, ghost binary: Path) returns (r: string)
    requires IsPath(binary) && binaryPath == Text(binary)
    ensures exists resolved :: Resolves(binary, resolved) && IsPath(resolved) && r == Text(resolved)
  {
    hide Text;
    hide Render;
    hide HasSuffix;
    hide Resolves;
    var path := binaryPath;
    ghost var k := |binary|;
    assert binary[..|binary|] == binary;
    while path != "/" && path != "."
      invariant 0 <= k <= |binary| && path == Text(binary[..k])
      invariant forall j :: k < j <= |binary| ==> !Bundle(binary, j)
      decreases k
    {
      ghost var p := binary[..k];
      RootText(p);
      SuffixIsOfLastName(p, APP);
      if HasSuffix(path, APP) {
        ResolvesTo(binary, k);
        return path;
      }
      DirIsParent(p);
      assert p[..|p| - 1] == binary[..k - 1];
      path := Dir(path);
      k := k - 1;
    }
    RootText(binary[..k]);
    ResolvesTo(binary, |binary|);
    return binaryPath;
  }

  lemma ResolvesTo(binary: Path, k: nat)
    requires k <= |binary| && forall j :: k < j <= |binary| ==> !Bundle(binary, j)
    requires Bundle(binary, k) || (k == |binary| && forall j :: 0 <= j <= |binary| ==> !Bundle(binary, j))
    ensures Resolves(binary, binary[..k])
  {
  }
}
