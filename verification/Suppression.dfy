/** Greedy non-maximum suppression of a ranked list, over any relation "a suppresses b". */
module Suppression {

  predicate Hit<T>(kept: seq<T>, x: T, f: (T, T) -> bool) {
    exists k | 0 <= k < |kept| :: f(kept[k], x)
  }

  /** The definition: a candidate is kept unless a kept candidate before it suppresses it. */
  function Survivors<T>(ds: seq<T>, f: (T, T) -> bool): (s: seq<T>)
    ensures |s| <= |ds|
  {
    if ds == [] then []
    else
      var s, x := Survivors(ds[..|ds| - 1], f), ds[|ds| - 1];
      if Hit(s, x, f) then s else s + [x]
  }

  function Capped<T>(s: seq<T>, cap: int): seq<T> {
    if cap <= 0 then [] else if |s| <= cap then s else s[..cap]
  }

  lemma {:induction false} SurvivorsSnoc<T>(ds: seq<T>, x: T, f: (T, T) -> bool)
    ensures Survivors(ds + [x], f) ==
            if Hit(Survivors(ds, f), x, f) then Survivors(ds, f) else Survivors(ds, f) + [x]
  {
    assert (ds + [x])[..|ds|] == ds;
  }

  // ---- characterisation ----

  function Select<T>(ds: seq<T>, keep: seq<bool>): (s: seq<T>)
    requires |keep| == |ds|
  {
    if ds == [] then []
    else
      var s := Select(ds[..|ds| - 1], keep[..|ds| - 1]);
      if keep[|ds| - 1] then s + [ds[|ds| - 1]] else s
  }

  predicate HitBefore<T>(ds: seq<T>, keep: seq<bool>, i: nat, x: T, f: (T, T) -> bool)
    requires |keep| == |ds| && i <= |ds|
  {
    exists j | 0 <= j < i :: keep[j] && f(ds[j], x)
  }

  /** Exactly the dropped candidates are suppressed by a kept one before them. */
  predicate Solves<T>(ds: seq<T>, keep: seq<bool>, f: (T, T) -> bool) {
    && |keep| == |ds|
    && forall i | 0 <= i < |ds| :: keep[i] <==> !HitBefore(ds, keep, i, ds[i], f)
  }

  lemma {:induction false} SelectHits<T>(ds: seq<T>, keep: seq<bool>, x: T, f: (T, T) -> bool)
    requires |keep| == |ds|
    ensures Hit(Select(ds, keep), x, f) <==> HitBefore(ds, keep, |ds|, x, f)
  {
    if ds != [] {
      var n := |ds| - 1;
      var s := Select(ds[..n], keep[..n]);
      SelectHits(ds[..n], keep[..n], x, f);
      if keep[n] {
        var t := s + [ds[n]];
        assert forall k | 0 <= k < |s| :: t[k] == s[k];
        assert t[|s|] == ds[n];
        assert Hit(t, x, f) <==> Hit(s, x, f) || f(ds[n], x);
      }
    }
  }

  /** The suppression equation has one solution, and `Survivors` is it. */
  lemma {:induction false} SurvivorsUnique<T>(ds: seq<T>, keep: seq<bool>, f: (T, T) -> bool)
    requires Solves(ds, keep, f)
    ensures Select(ds, keep) == Survivors(ds, f)
  {
    if ds != [] {
      var n := |ds| - 1;
      SolvesPrefix(ds, keep, f);
      SurvivorsUnique(ds[..n], keep[..n], f);
      SelectHits(ds[..n], keep[..n], ds[n], f);
      HitBeforePrefix(ds, keep, n, n, ds[n], f);
    }
  }

  lemma {:induction false} HitBeforePrefix<T>(ds: seq<T>, keep: seq<bool>, n: nat, i: nat, x: T, f: (T, T) -> bool)
    requires |keep| == |ds| && i <= n <= |ds|
    ensures HitBefore(ds[..n], keep[..n], i, x, f) <==> HitBefore(ds, keep, i, x, f)
  {
    assert forall j | 0 <= j < i :: keep[..n][j] == keep[j] && ds[..n][j] == ds[j];
  }

  lemma {:induction false} SolvesPrefix<T>(ds: seq<T>, keep: seq<bool>, f: (T, T) -> bool)
    requires ds != [] && Solves(ds, keep, f)
    ensures Solves(ds[..|ds| - 1], keep[..|ds| - 1], f)
  {
    var n := |ds| - 1;
    forall i | 0 <= i < n
      ensures keep[..n][i] <==> !HitBefore(ds[..n], keep[..n], i, ds[..n][i], f)
    {
      HitBeforePrefix(ds, keep, n, i, ds[i], f);
    }
  }

  /** Every candidate before position `i` that was not kept is suppressed by a kept one ranked before
      it: this also holds of a run that stops at the cap there. */
  lemma {:induction false} UnkeptAreSuppressed<T>(ds: seq<T>, f: (T, T) -> bool, i: nat)
    requires i < |ds|
    ensures ds[i] in Survivors(ds, f) || Hit(Survivors(ds[..i], f), ds[i], f)
    ensures Survivors(ds[..i], f) <= Survivors(ds, f)
  {
    var n := |ds| - 1;
    if i < n {
      UnkeptAreSuppressed(ds[..n], f, i);
      assert ds[..n][..i] == ds[..i];
    }
  }

  lemma {:induction false} SurvivorsPrefix<T>(ds: seq<T>, f: (T, T) -> bool, i: nat)
    requires i <= |ds|
    ensures Survivors(ds[..i], f) <= Survivors(ds, f)
  {
    if i < |ds| {
      UnkeptAreSuppressed(ds, f, i);
    } else {
      assert ds[..i] == ds;
    }
  }

  lemma {:induction false} SurvivorsAmong<T>(ds: seq<T>, f: (T, T) -> bool)
    ensures forall d | d in Survivors(ds, f) :: d in ds
  {
    if ds != [] {
      SurvivorsAmong(ds[..|ds| - 1], f);
    }
  }

  /** No kept candidate suppresses one kept after it. */
  lemma {:induction false} KeptAreApart<T>(ds: seq<T>, f: (T, T) -> bool)
    ensures forall i, j | 0 <= i < j < |Survivors(ds, f)| :: !f(Survivors(ds, f)[i], Survivors(ds, f)[j])
  {
    if ds != [] {
      KeptAreApart(ds[..|ds| - 1], f);
    }
  }

  /** A candidate is kept, or suppressed by a kept one ranked before it, unless the cap is reached. */
  lemma {:induction false} DroppedAreHit<T>(ds: seq<T>, f: (T, T) -> bool, cap: int, i: nat)
    requires i < |ds|
    ensures var kept := Capped(Survivors(ds, f), cap);
            || ds[i] in kept || |kept| == (if cap < 0 then 0 else cap)
            || exists j | 0 <= j < i :: ds[j] in kept && f(ds[j], ds[i])
  {
    UnkeptAreSuppressed(ds, f, i);
    SurvivorsAmong(ds[..i], f);
    var kept, s := Capped(Survivors(ds, f), cap), Survivors(ds[..i], f);
    if kept == Survivors(ds, f) && ds[i] !in kept {
      var k :| 0 <= k < |s| && f(s[k], ds[i]);
      assert s[k] in s;
      assert Survivors(ds, f)[k] == s[k];
      var j :| 0 <= j < i && ds[..i][j] == s[k];
      assert ds[j] in kept && f(ds[j], ds[i]);
    }
  }

  /** What holds of any two elements of a list holds of any two of a permutation of it. */
  lemma {:induction false} PairsPermute<T>(a: seq<T>, b: seq<T>, p: (T, T) -> bool, i: nat, j: nat)
    requires multiset(a) == multiset(b) && i < j < |a|
    requires forall k, l | 0 <= k < l < |b| :: p(b[k], b[l]) && p(b[l], b[k])
    ensures p(a[i], a[j])
  {
    assert a[i] in multiset(b) && a[j] in multiset(b);
    var k :| 0 <= k < |b| && b[k] == a[i];
    var l;
    if a[i] != a[j] {
      l :| 0 <= l < |b| && b[l] == a[j];
    } else {
      TwiceIn(a, i, j);
      l := SecondPlace(b, k);
    }
    assert k < l || l < k;
  }

  lemma {:induction false} TwiceIn<T>(a: seq<T>, i: nat, j: nat)
    requires i < j < |a| && a[i] == a[j]
    ensures multiset(a)[a[i]] >= 2
  {
    assert a == a[..j] + [a[j]] + a[j + 1..];
    assert a[..j][i] in multiset(a[..j]);
  }

  lemma {:induction false} SecondPlace<T>(b: seq<T>, k: nat) returns (l: nat)
    requires k < |b| && multiset(b)[b[k]] >= 2
    ensures l < |b| && l != k && b[l] == b[k]
  {
    var rest := b[..k] + b[k + 1..];
    assert b == b[..k] + [b[k]] + b[k + 1..];
    assert multiset(b) == multiset(rest) + multiset{b[k]};
    assert b[k] in multiset(rest);
    var m :| 0 <= m < |rest| && rest[m] == b[k];
    l := if m < k then m else m + 1;
  }

  // ---- the shrinking-list form ----

  function Unhit<T>(ds: seq<T>, d: T, f: (T, T) -> bool): (r: seq<T>)
    ensures |r| <= |ds|
  {
    if ds == [] then []
    else (if f(d, ds[0]) then [] else [ds[0]]) + Unhit(ds[1..], d, f)
  }

  /** Take the first of the list, drop what it suppresses, go on. */
  function Shrinking<T>(order: seq<T>, f: (T, T) -> bool): seq<T>
    decreases |order|
  {
    if order == [] then [] else [order[0]] + Shrinking(Unhit(order[1..], order[0], f), f)
  }

  lemma {:induction false} UnhitSnoc<T>(ds: seq<T>, x: T, d: T, f: (T, T) -> bool)
    ensures Unhit(ds + [x], d, f) == Unhit(ds, d, f) + (if f(d, x) then [] else [x])
  {
    if ds == [] {
      assert ds + [x] == [x];
      assert [x][1..] == [];
    } else {
      assert (ds + [x])[1..] == ds[1..] + [x];
      UnhitSnoc(ds[1..], x, d, f);
    }
  }

  lemma {:induction false} FirstThenRest<T>(d: T, rest: seq<T>, f: (T, T) -> bool)
    ensures Survivors([d] + rest, f) == [d] + Survivors(Unhit(rest, d, f), f)
  {
    if rest == [] {
      assert [d] + rest == [] + [d];
      SurvivorsSnoc([], d, f);
    } else {
      var init, x := rest[..|rest| - 1], rest[|rest| - 1];
      FirstThenRest(d, init, f);
      FirstStep(d, init, x, f);
      assert rest == init + [x];
    }
  }

  lemma {:induction false} FirstStep<T>(d: T, init: seq<T>, x: T, f: (T, T) -> bool)
    requires Survivors([d] + init, f) == [d] + Survivors(Unhit(init, d, f), f)
    ensures Survivors([d] + (init + [x]), f) == [d] + Survivors(Unhit(init + [x], d, f), f)
  {
    hide Survivors, Unhit, Hit;
    var u := Unhit(init, d, f);
    var s := Survivors(u, f);
    UnhitSnoc(init, x, d, f);
    assert [d] + (init + [x]) == ([d] + init) + [x];
    SurvivorsSnoc([d] + init, x, f);
    HitCons(d, s, x, f);
    SurvivorsSnoc(u, x, f);
    assert u + [] == u;
    assert ([d] + s) + [x] == [d] + (s + [x]);
  }

  lemma {:induction false} HitCons<T>(d: T, s: seq<T>, x: T, f: (T, T) -> bool)
    ensures Hit([d] + s, x, f) <==> f(d, x) || Hit(s, x, f)
  {
    assert ([d] + s)[0] == d;
    assert forall k | 0 <= k < |s| :: ([d] + s)[k + 1] == s[k];
  }

  /** The shrinking list keeps what the definition keeps. */
  lemma {:induction false} ShrinkingKeepsSurvivors<T>(order: seq<T>, f: (T, T) -> bool)
    ensures Shrinking(order, f) == Survivors(order, f)
    decreases |order|
  {
    if order != [] {
      ShrinkingKeepsSurvivors(Unhit(order[1..], order[0], f), f);
      FirstThenRest(order[0], order[1..], f);
      assert order == [order[0]] + order[1..];
    }
  }

  // ---- by class ----

  function Filter<T>(ds: seq<T>, p: T -> bool): (r: seq<T>)
    ensures |r| <= |ds|
  {
    if ds == [] then []
    else Filter(ds[..|ds| - 1], p) + (if p(ds[|ds| - 1]) then [ds[|ds| - 1]] else [])
  }

  lemma {:induction false} FilterSnoc<T>(ds: seq<T>, x: T, p: T -> bool)
    ensures Filter(ds + [x], p) == Filter(ds, p) + (if p(x) then [x] else [])
  {
    assert (ds + [x])[..|ds|] == ds;
  }

  lemma {:induction false} FilterHits<T>(s: seq<T>, p: T -> bool, x: T, f: (T, T) -> bool)
    requires forall a | f(a, x) :: p(a)
    ensures Hit(Filter(s, p), x, f) <==> Hit(s, x, f)
  {
    if s != [] {
      var init, y := s[..|s| - 1], s[|s| - 1];
      FilterHits(init, p, x, f);
      assert s == init + [y];
      HitSnoc(init, y, x, f);
      HitSnoc(Filter(init, p), y, x, f);
      assert Filter(init, p) + [] == Filter(init, p);
    }
  }

  lemma {:induction false} HitSnoc<T>(s: seq<T>, y: T, x: T, f: (T, T) -> bool)
    ensures Hit(s + [y], x, f) <==> Hit(s, x, f) || f(y, x)
  {
    var t := s + [y];
    assert forall k | 0 <= k < |s| :: t[k] == s[k];
    assert t[|s|] == y;
  }
}
