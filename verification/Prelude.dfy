/** Small vocabulary shared by the modules: optional values and a few facts about
    sequences that the standard theory of `seq` does not give by itself. */
module Prelude {

  datatype Option<+T> = None | Some(value: T)

  ghost predicate Distinct<T>(s: seq<T>) {
    forall i, j :: 0 <= i < j < |s| ==> s[i] != s[j]
  }

  /** `s` without the element at index `i`. */
  function Without<T>(s: seq<T>, i: nat): seq<T>
    requires i < |s|
  {
    s[..i] + s[i + 1..]
  }

  lemma WithoutKeepsOrder<T>(s: seq<T>, i: nat)
    requires i < |s|
    ensures |Without(s, i)| == |s| - 1
    ensures forall k :: 0 <= k < i ==> Without(s, i)[k] == s[k]
    ensures forall k :: i <= k < |s| - 1 ==> Without(s, i)[k] == s[k + 1]
  {
  }

  lemma WithoutFromDistinct<T>(s: seq<T>, i: nat)
    requires Distinct(s) && i < |s|
    ensures Distinct(Without(s, i))
    ensures forall x :: x in Without(s, i) <==> x in s && x != s[i]
  {
    var r := Without(s, i);
    WithoutKeepsOrder(s, i);
    forall x ensures x in r <==> x in s && x != s[i] {
      if x in s && x != s[i] {
        var k :| 0 <= k < |s| && s[k] == x;
        assert r[if k < i then k else k - 1] == x;
      }
      if x in r {
        var k :| 0 <= k < |r| && r[k] == x;
        assert x == s[if k < i then k else k + 1];
      }
    }
  }

  /** The elements of `s` that satisfy `keep`, in order. */
  function Filter<T(!new)>(s: seq<T>, keep: T -> bool): (r: seq<T>)
    ensures |r| <= |s|
    ensures forall x :: x in r <==> x in s && keep(x)
  {
    if s == [] then [] else (if keep(s[0]) then [s[0]] else []) + Filter(s[1..], keep)
  }

  lemma {:induction false} FilterAppend<T(!new)>(s: seq<T>, t: seq<T>, keep: T -> bool)
    ensures Filter(s + t, keep) == Filter(s, keep) + Filter(t, keep)
  {
    if s == [] {
      assert s + t == t;
    } else {
      assert (s + t)[0] == s[0] && (s + t)[1..] == s[1..] + t;
      FilterAppend(s[1..], t, keep);
      var head := if keep(s[0]) then [s[0]] else [];
      assert (head + Filter(s[1..], keep)) + Filter(t, keep) == head + (Filter(s[1..], keep) + Filter(t, keep));
    }
  }

  lemma FilterSnoc<T(!new)>(s: seq<T>, i: nat, keep: T -> bool)
    requires i < |s|
    ensures Filter(s[..i + 1], keep) == Filter(s[..i], keep) + if keep(s[i]) then [s[i]] else []
  {
    assert s[..i + 1] == s[..i] + [s[i]];
    FilterAppend(s[..i], [s[i]], keep);
  }
}
