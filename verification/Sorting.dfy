/** sort.Slice: sorting by a caller's less-than. */
module Sorting {

  /** What sort.Slice asks of `less`: a strict weak order. */
  ghost predicate IsOrder<T(!new)>(less: (T, T) -> bool) {
    && (forall a, b :: less(a, b) ==> !less(b, a))
    && (forall a, b, c :: !less(b, a) && !less(c, b) ==> !less(c, a))
  }

  /** No two different elements rank equal. */
  ghost predicate IsTotal<T(!new)>(less: (T, T) -> bool) {
    forall a, b :: less(a, b) || a == b || less(b, a)
  }

  ghost predicate IsSorted<T>(s: seq<T>, less: (T, T) -> bool) {
    forall i, j :: 0 <= i < j < |s| ==> !less(s[j], s[i])
  }

  function Insert<T(!new)>(x: T, s: seq<T>, less: (T, T) -> bool): (r: seq<T>)
    requires IsOrder(less) && IsSorted(s, less)
    ensures multiset(r) == multiset(s) + multiset{x}
    ensures IsSorted(r, less)
  {
    if s == [] then [x]
    else if less(s[0], x) then
      var rest := Insert(x, s[1..], less);
      BehindKeepsOrder(x, s, rest, less);
      assert s == [s[0]] + s[1..];
      [s[0]] + rest
    else
      InFrontKeepsOrder(x, s, less);
      [x] + s
  }

  lemma InFrontKeepsOrder<T(!new)>(x: T, s: seq<T>, less: (T, T) -> bool)
    requires IsOrder(less) && IsSorted(s, less) && s != [] && !less(s[0], x)
    ensures IsSorted([x] + s, less)
  {
    forall i | 0 <= i < |s| ensures !less(s[i], x) {
      assert i > 0 ==> !less(s[i], s[0]);
    }
  }

  lemma BehindKeepsOrder<T(!new)>(x: T, s: seq<T>, rest: seq<T>, less: (T, T) -> bool)
    requires IsOrder(less) && IsSorted(s, less) && s != [] && less(s[0], x)
    requires IsSorted(rest, less) && multiset(rest) == multiset(s[1..]) + multiset{x}
    ensures IsSorted([s[0]] + rest, less)
  {
    forall i | 0 <= i < |rest| ensures !less(rest[i], s[0]) {
      assert rest[i] in multiset(rest);
      if rest[i] != x {
        assert rest[i] in s[1..];
        var j :| 0 <= j < |s[1..]| && s[1..][j] == rest[i];
        assert s[j + 1] == rest[i];
      }
    }
  }

  /** The sorted rearrangement of a list. */
  function Sort<T(!new)>(s: seq<T>, less: (T, T) -> bool): (r: seq<T>)
    requires IsOrder(less)
    ensures multiset(r) == multiset(s)
    ensures IsSorted(r, less)
  {
    if s == [] then []
    else
      assert s == s[..|s| - 1] + [s[|s| - 1]];
      Insert(s[|s| - 1], Sort(s[..|s| - 1], less), less)
  }

  /** Two sorted lists of the same elements are the same list. */
  lemma {:induction false} SortedIsUnique<T(!new)>(a: seq<T>, b: seq<T>, less: (T, T) -> bool)
    requires IsOrder(less) && IsTotal(less)
    requires IsSorted(a, less) && IsSorted(b, less) && multiset(a) == multiset(b)
    ensures a == b
    decreases |a|
  {
    assert |multiset(a)| == |a| && |multiset(b)| == |b|;
    if a != [] {
      FirstIsLeast(a, b[0], b, less);
      FirstIsLeast(b, a[0], a, less);
      assert a[0] == b[0];
      assert a == [a[0]] + a[1..] && b == [b[0]] + b[1..];
      assert multiset(a[1..]) == multiset(a) - multiset{a[0]};
      assert multiset(b[1..]) == multiset(b) - multiset{b[0]};
      SortedIsUnique(a[1..], b[1..], less);
    }
  }

  lemma FirstIsLeast<T(!new)>(a: seq<T>, p: T, b: seq<T>, less: (T, T) -> bool)
    requires IsOrder(less) && IsSorted(a, less) && multiset(a) == multiset(b) && a != [] && p in b
    ensures !less(p, a[0])
  {
    assert p in multiset(a);
    var i :| 0 <= i < |a| && a[i] == p;
    assert i > 0 ==> !less(a[i], a[0]);
    assert !less(a[0], a[0]);
  }
}
