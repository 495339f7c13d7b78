/** Facts about finite sequences that several components share. */
module Seqs {

  datatype Option<+T> = None | Some(value: T)

  ghost predicate NoDup<T>(s: seq<T>) {
    forall i, j :: 0 <= i < j < |s| ==> s[i] != s[j]
  }

  function ToSet<T(!new)>(s: seq<T>): (r: set<T>)
    ensures forall x :: x in r <==> x in s
  {
    set x | x in s
  }

  /** The elements satisfying `keep`, in order. */
  function Filter<T(!new)>(s: seq<T>, keep: T -> bool): (r: seq<T>)
    ensures forall x :: x in r <==> x in s && keep(x)
    ensures |r| <= |s|
  {
    if s == [] then []
    else if keep(s[0]) then [s[0]] + Filter(s[1..], keep)
    else Filter(s[1..], keep)
  }

  /** The last `n` elements (all of them when there are fewer). */
  function LastN<T>(s: seq<T>, n: nat): (r: seq<T>)
    ensures |r| == if n < |s| then n else |s|
  {
    if n < |s| then s[|s| - n..] else s
  }

  lemma {:induction false} FilterNoDup<T(!new)>(s: seq<T>, keep: T -> bool)
    requires NoDup(s)
    ensures NoDup(Filter(s, keep))
  {
    if s != [] {
      FilterNoDup(s[1..], keep);
    }
  }

  lemma {:induction false} NoDupCardinality<T(!new)>(s: seq<T>)
    requires NoDup(s)
    ensures |ToSet(s)| == |s|
  {
    if s != [] {
      NoDupCardinality(s[1..]);
      assert ToSet(s) == {s[0]} + ToSet(s[1..]);
      assert s[0] !in s[1..];
    }
  }

  lemma SubsetCardinality<T>(a: set<T>, b: set<T>)
    requires a <= b
    ensures |a| <= |b|
  {
    assert b == a + (b - a);
  }

  // ------------------------------------------------------------------ removing

  function Remove<T(==)>(s: seq<T>, x: T): (r: seq<T>) {
    if s == [] then []
    else if s[0] == x then Remove(s[1..], x)
    else [s[0]] + Remove(s[1..], x)
  }

  lemma {:induction false} RemoveKeepsRest<T(!new)>(s: seq<T>, x: T)
    requires NoDup(s)
    ensures NoDup(Remove(s, x)) && ToSet(Remove(s, x)) == ToSet(s) - {x}
    ensures forall y :: y in Remove(s, x) <==> y in s && y != x
  {
    if s != [] {
      var rest := Remove(s[1..], x);
      RemoveKeepsRest(s[1..], x);
      assert s[0] !in s[1..] && s[0] !in ToSet(rest);
      assert ToSet(s) == {s[0]} + ToSet(s[1..]);
      assert ToSet([s[0]] + rest) == {s[0]} + ToSet(rest);
    }
  }

  lemma {:induction false} RemoveLength<T>(s: seq<T>, x: T)
    ensures |Remove(s, x)| <= |s| && (x in s ==> |Remove(s, x)| < |s|)
  {
    if s != [] {
      RemoveLength(s[1..], x);
    }
  }

  // ------------------------------------------------------------------- sorting

  /** Every element comes before all later ones. */
  ghost predicate Ascending<T(!new)>(s: seq<T>, before: (T, T) -> bool) {
    forall i, j :: 0 <= i < j < |s| ==> before(s[i], s[j])
  }

  lemma InFront<T(!new)>(x: T, sorted: seq<T>, before: (T, T) -> bool)
    requires Ascending(sorted, before) && forall y :: y in sorted ==> before(x, y)
    ensures Ascending([x] + sorted, before)
  {
    var r := [x] + sorted;
    assert forall i :: 0 < i < |r| ==> r[i] == sorted[i - 1] && r[i] in sorted;
  }

  lemma RestAfterFirst<T(!new)>(sorted: seq<T>, before: (T, T) -> bool)
    requires Ascending(sorted, before) && sorted != []
    ensures Ascending(sorted[1..], before) && forall y :: y in sorted[1..] ==> before(sorted[0], y)
    ensures forall y :: y in sorted <==> y == sorted[0] || y in sorted[1..]
  {
    assert sorted == [sorted[0]] + sorted[1..];
  }
}
