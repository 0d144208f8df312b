/** Sorting by a comparison, and when the result is unique. */
module Ranking {

  predicate Sorted<T>(s: seq<T>, before: (T, T) -> bool) {
    forall i, j | 0 <= i < j < |s| :: !before(s[j], s[i])
  }

  /** A strict weak ordering, as `std::sort` demands of its comparator. */
  ghost predicate WeakOrder<T(!new)>(before: (T, T) -> bool) {
    && (forall a, b :: before(a, b) ==> !before(b, a))
    && (forall a, b, c :: !before(b, a) && !before(c, b) ==> !before(c, a))
  }

  method Insert<T(!new)>(s: seq<T>, x: T, before: (T, T) -> bool) returns (r: seq<T>)
    requires WeakOrder(before) && Sorted(s, before)
    ensures multiset(r) == multiset(s) + multiset{x} && Sorted(r, before)
  {
    var i := |s|;
    while i > 0 && before(x, s[i - 1])
      invariant 0 <= i <= |s|
      invariant forall k | i <= k < |s| :: before(x, s[k])
    {
      i := i - 1;
    }
    r := s[..i] + [x] + s[i..];
    Inserted(s, i, x, before);
  }

  lemma {:induction false} Inserted<T(!new)>(s: seq<T>, i: nat, x: T, before: (T, T) -> bool)
    requires WeakOrder(before) && Sorted(s, before) && i <= |s|
    requires i == 0 || !before(x, s[i - 1])
    requires forall k | i <= k < |s| :: before(x, s[k])
    ensures multiset(s[..i] + [x] + s[i..]) == multiset(s) + multiset{x}
    ensures Sorted(s[..i] + [x] + s[i..], before)
  {
    var r := s[..i] + [x] + s[i..];
    assert s == s[..i] + s[i..];
    forall k | 0 <= k < i
      ensures !before(x, s[k])
    {
      assert k == i - 1 || !before(s[i - 1], s[k]);
    }
    forall a, b | 0 <= a < b < |r|
      ensures !before(r[b], r[a])
    {
      assert r[a] == if a < i then s[a] else if a == i then x else s[a - 1];
      assert r[b] == if b < i then s[b] else if b == i then x else s[b - 1];
    }
  }

  /** Stands for the library sorts: callers use no more than that the result is a sorted permutation. */
  method Sort<T(!new)>(s: seq<T>, before: (T, T) -> bool) returns (r: seq<T>)
    requires WeakOrder(before)
    ensures multiset(r) == multiset(s) && Sorted(r, before)
  {
    r := [];
    for i := 0 to |s|
      invariant multiset(r) == multiset(s[..i]) && Sorted(r, before)
    {
      r := Insert(r, s[i], before);
      assert s[..i + 1] == s[..i] + [s[i]];
    }
    assert s[..|s|] == s;
  }

  /** There is a sorted permutation of anything. */
  lemma {:induction false} Sortable<T(!new)>(s: seq<T>, before: (T, T) -> bool) returns (r: seq<T>)
    requires WeakOrder(before)
    ensures multiset(r) == multiset(s) && Sorted(r, before)
  {
    r := [];
    if s != [] {
      var x := s[|s| - 1];
      var init := Sortable(s[..|s| - 1], before);
      var i := |init|;
      while i > 0 && before(x, init[i - 1])
        invariant 0 <= i <= |init|
        invariant forall k | i <= k < |init| :: before(x, init[k])
      {
        i := i - 1;
      }
      r := init[..i] + [x] + init[i..];
      Inserted(init, i, x, before);
      assert s == s[..|s| - 1] + [x];
    }
  }

  /** Different elements are never tied. */
  ghost predicate Separated<T>(s: seq<T>, before: (T, T) -> bool) {
    forall i, j | 0 <= i < |s| && 0 <= j < |s| :: before(s[i], s[j]) || before(s[j], s[i]) || s[i] == s[j]
  }

  /** Two sorted permutations are equal if different elements are never tied. */
  lemma {:induction false} SortedUnique<T(!new)>(a: seq<T>, b: seq<T>, before: (T, T) -> bool)
    requires multiset(a) == multiset(b) && Sorted(a, before) && Sorted(b, before)
    requires Separated(a, before)
    ensures a == b
  {
    SameSize(a, b);
    if a != [] {
      SameFirst(a, b, before);
      SameTails(a, b);
      assert Separated(a[1..], before) by { Tail(a); }
      assert Sorted(a[1..], before) by { Tail(a); }
      assert Sorted(b[1..], before) by { Tail(b); }
      SortedUnique(a[1..], b[1..], before);
      assert a == [a[0]] + a[1..] && b == [b[0]] + b[1..];
    }
  }

  lemma {:induction false} Tail<T>(s: seq<T>)
    requires s != []
    ensures forall i | 0 <= i < |s| - 1 :: s[1..][i] == s[i + 1]
  {
  }

  lemma {:induction false} SameSize<T>(a: seq<T>, b: seq<T>)
    requires multiset(a) == multiset(b)
    ensures |a| == |b|
  {
    assert |multiset(a)| == |multiset(b)|;
  }

  lemma {:induction false} SameTails<T>(a: seq<T>, b: seq<T>)
    requires a != [] && b != [] && a[0] == b[0] && multiset(a) == multiset(b)
    ensures multiset(a[1..]) == multiset(b[1..])
  {
    assert a == [a[0]] + a[1..] && b == [b[0]] + b[1..];
    assert multiset(a[1..]) == multiset(a) - multiset{a[0]};
    assert multiset(b[1..]) == multiset(b) - multiset{b[0]};
  }

  lemma {:induction false} SameFirst<T(!new)>(a: seq<T>, b: seq<T>, before: (T, T) -> bool)
    requires multiset(a) == multiset(b) && Sorted(a, before) && Sorted(b, before)
    requires Separated(a, before) && a != [] && b != []
    ensures a[0] == b[0]
  {
    assert a[0] in multiset(b) && b[0] in multiset(a);
    var i :| 0 <= i < |b| && b[i] == a[0];
    var j :| 0 <= j < |a| && a[j] == b[0];
    assert i == 0 || !before(b[i], b[0]);
    assert j == 0 || !before(a[j], a[0]);
  }
}
