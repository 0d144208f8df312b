/** The native and the Python decoder compute the same table; suppression by class decomposes into the
    reference worker's class-agnostic suppression of each class. */
module DecoderAgreement {
  import opened Ranking
  import opened Suppression
  import opened Detections
  import opened PostprocessYolo
  import opened DecodeYolo

  // ================= selection =================

  ghost predicate NoneAtThreshold(cs: seq<Column>, threshold: real) {
    forall i | 0 <= i < |cs| :: cs[i].scores != [] ==> cs[i].scores[FirstMax(cs[i].scores)] != threshold
  }

  predicate HaveScores(cs: seq<Column>) {
    forall i | 0 <= i < |cs| :: cs[i].scores != []
  }

  /** For a positive threshold the two selections agree exactly when no column's best score equals the
      threshold: there the native decoder keeps the column and the Python one drops it. */
  lemma {:induction false} SelectionsAgree(cs: seq<Column>, threshold: real)
    requires threshold > 0.0 && HaveScores(cs)
    ensures |CppCandidates(cs, threshold)| >= |PyCandidates(cs, threshold)|
    ensures CppCandidates(cs, threshold) == PyCandidates(cs, threshold) <==> NoneAtThreshold(cs, threshold)
    ensures NoneAtThreshold(cs, threshold) || |CppCandidates(cs, threshold)| > |PyCandidates(cs, threshold)|
  {
    if cs != [] {
      hide FirstMax, BoxOf;
      SelectionsAgree(cs[..|cs| - 1], threshold);
      var last := cs[|cs| - 1];
      assert NoneAtThreshold(cs, threshold) <==>
             NoneAtThreshold(cs[..|cs| - 1], threshold) && last.scores[FirstMax(last.scores)] != threshold;
    }
  }

  // ================= ranking =================

  predicate DistinctScores(ds: seq<Det>) {
    forall i, j | 0 <= i < j < |ds| :: ds[i].score != ds[j].score
  }

  lemma {:induction false} PickPermutes(cands: seq<Det>, a: seq<int>, b: seq<int>)
    requires forall k | 0 <= k < |a| :: 0 <= a[k] < |cands|
    requires forall k | 0 <= k < |b| :: 0 <= b[k] < |cands|
    requires multiset(a) == multiset(b)
    ensures multiset(Pick(cands, a)) == multiset(Pick(cands, b))
  {
    SameSize(a, b);
    if a != [] {
      assert a[0] in multiset(b);
      var i :| 0 <= i < |b| && b[i] == a[0];
      var rest := b[..i] + b[i + 1..];
      Removed(a, b, i);
      PickPermutes(cands, a[1..], rest);
      PickFirst(cands, a);
      PickRemoved(cands, b, i);
    }
  }

  lemma {:induction false} Removed(a: seq<int>, b: seq<int>, i: nat)
    requires a != [] && i < |b| && b[i] == a[0] && multiset(a) == multiset(b)
    ensures multiset(a[1..]) == multiset(b[..i] + b[i + 1..])
  {
    assert a == [a[0]] + a[1..] && b == b[..i] + [b[i]] + b[i + 1..];
    assert multiset(a[1..]) == multiset(a) - multiset{a[0]};
    assert multiset(b[..i] + b[i + 1..]) == multiset(b) - multiset{b[i]};
  }

  lemma {:induction false} PickFirst(cands: seq<Det>, a: seq<int>)
    requires a != [] && forall k | 0 <= k < |a| :: 0 <= a[k] < |cands|
    ensures multiset(Pick(cands, a)) == multiset{cands[a[0]]} + multiset(Pick(cands, a[1..]))
  {
    assert Pick(cands, a) == [cands[a[0]]] + Pick(cands, a[1..]);
  }

  lemma {:induction false} PickRemoved(cands: seq<Det>, b: seq<int>, i: nat)
    requires i < |b| && forall k | 0 <= k < |b| :: 0 <= b[k] < |cands|
    ensures multiset(Pick(cands, b)) == multiset{cands[b[i]]} + multiset(Pick(cands, b[..i] + b[i + 1..]))
  {
    var p, q := Pick(cands, b[..i]), Pick(cands, b[i + 1..]);
    assert Pick(cands, b) == p + [cands[b[i]]] + q;
    assert Pick(cands, b[..i] + b[i + 1..]) == p + q;
  }

  /** What a permutation of the candidates contains is a candidate. */
  lemma {:induction false} Among(a: seq<Det>, b: seq<Det>)
    requires multiset(a) == multiset(b)
    ensures forall d | d in a :: d in b
  {
    forall d | d in a
      ensures d in b
    {
      assert d in multiset(b);
    }
  }

  lemma {:induction false} DistinctAreSeparated(ds: seq<Det>, cands: seq<Det>)
    requires DistinctScores(cands) && forall d | d in ds :: d in cands
    ensures Separated(ds, ByScore)
  {
    forall i, j | 0 <= i < |ds| && 0 <= j < |ds|
      ensures ByScore(ds[i], ds[j]) || ByScore(ds[j], ds[i]) || ds[i] == ds[j]
    {
      assert ds[i] in cands && ds[j] in cands;
      var k :| 0 <= k < |cands| && cands[k] == ds[i];
      var l :| 0 <= l < |cands| && cands[l] == ds[j];
      assert k < l || l < k || k == l;
    }
  }

  /** Of two tied candidates the native sort puts the lower class
      first, the argsort the lower column. */
  lemma {:induction false} TiedRankingsDiffer(cands: seq<Det>, ranked: seq<Det>, order: seq<int>, i: nat, j: nat)
    requires i < j < |cands| && cands[i].score == cands[j].score && cands[i].cls > cands[j].cls
    requires multiset(ranked) == multiset(cands) && Sorted(ranked, CppBefore)
    requires IsArgsort(order, Scores(cands)) && forall k | 0 <= k < |order| :: 0 <= order[k] < |cands|
    ensures ranked != Pick(cands, order)
  {
    var all := Indices(|cands|);
    assert all[i] in multiset(order) && all[j] in multiset(order);
    var p :| 0 <= p < |order| && order[p] == i;
    var q :| 0 <= q < |order| && order[q] == j;
    assert p < q by {
      assert KeyOrder(Scores(cands))(i, j);
    }
    var picked := Pick(cands, order);
    assert CppBefore(picked[q], picked[p]);
    assert !Sorted(picked, CppBefore);
  }

  /** Where scores tie, the lower column has the lower class, or both are the same detection. */
  predicate TiesInOrder(cands: seq<Det>) {
    forall i, j | 0 <= i < j < |cands| && cands[i].score == cands[j].score ::
      cands[i].cls < cands[j].cls || cands[i] == cands[j]
  }

  /** Whatever the native sort makes of the candidates, it is what the argsort picks. */
  ghost predicate AlwaysRankedAs(cands: seq<Det>, picked: seq<Det>) {
    forall ranked | multiset(ranked) == multiset(cands) && Sorted(ranked, CppBefore) :: ranked == picked
  }

  /** The two rankings agree, whatever order the native sort gives to candidates it does not separate,
      exactly when every tie is in order. */
  lemma {:induction false} RankingsAgreeExactly(cands: seq<Det>, order: seq<int>)
    requires IsArgsort(order, Scores(cands)) && forall k | 0 <= k < |order| :: 0 <= order[k] < |cands|
    ensures AlwaysRankedAs(cands, Pick(cands, order)) <==> TiesInOrder(cands)
  {
    hide IsArgsort, Scores, AlwaysRankedAs;
    if TiesInOrder(cands) {
      OrderedTiesAgree(cands, order);
    } else {
      var i, j :| 0 <= i < j < |cands| && cands[i].score == cands[j].score
                  && !(cands[i].cls < cands[j].cls) && cands[i] != cands[j];
      UnorderedTieDiffers(cands, order, i, j);
    }
  }

  lemma {:induction false} PickedPermutation(cands: seq<Det>, order: seq<int>)
    requires IsArgsort(order, Scores(cands)) && forall k | 0 <= k < |order| :: 0 <= order[k] < |cands|
    ensures multiset(Pick(cands, order)) == multiset(cands)
  {
    PickPermutes(cands, order, Indices(|cands|));
    assert Pick(cands, Indices(|cands|)) == cands;
  }

  lemma {:induction false} UnorderedTieDiffers(cands: seq<Det>, order: seq<int>, i: nat, j: nat)
    requires IsArgsort(order, Scores(cands)) && forall k | 0 <= k < |order| :: 0 <= order[k] < |cands|
    requires i < j < |cands| && cands[i].score == cands[j].score && cands[i].cls >= cands[j].cls && cands[i] != cands[j]
    ensures !AlwaysRankedAs(cands, Pick(cands, order))
  {
    hide IsArgsort, Scores, Sorted, CppBefore, Pick;
    CppBeforeIsWeak();
    var ranked := Sortable(cands, CppBefore);
    if cands[i].cls > cands[j].cls {
      TiedRankingsDiffer(cands, ranked, order, i, j);
    } else if ranked == Pick(cands, order) {
      SwappedTie(cands, order, i, j);
    }
  }

  /** Detections of one class and score may change places. */
  lemma {:induction false} SwappedTie(cands: seq<Det>, order: seq<int>, i: nat, j: nat)
    requires IsArgsort(order, Scores(cands)) && forall k | 0 <= k < |order| :: 0 <= order[k] < |cands|
    requires i < j < |cands| && cands[i].score == cands[j].score && cands[i].cls == cands[j].cls && cands[i] != cands[j]
    requires multiset(Pick(cands, order)) == multiset(cands) && Sorted(Pick(cands, order), CppBefore)
    ensures !AlwaysRankedAs(cands, Pick(cands, order))
  {
    hide IsArgsort, Scores, Sorted, CppBefore;
    var p := Pick(cands, order);
    var a := Placed(cands, order, i);
    var b := Placed(cands, order, j);
    SwapStaysSorted(p, a, b);
    assert p[a := p[b]][b := p[a]][b] == cands[i] != p[b];
  }

  lemma {:induction false} CppBeforeIsWeak()
    ensures WeakOrder(CppBefore)
  {
  }

  /** The place of a candidate in the argsort. */
  lemma {:induction false} Placed(cands: seq<Det>, order: seq<int>, i: nat) returns (a: nat)
    requires IsArgsort(order, Scores(cands)) && i < |cands|
    ensures a < |order| && order[a] == i
  {
    assert Indices(|cands|)[i] in multiset(order);
    var b :| 0 <= b < |order| && order[b] == i;
    a := b;
  }

  lemma {:induction false} OrderedTiesAgree(cands: seq<Det>, order: seq<int>)
    requires IsArgsort(order, Scores(cands)) && forall k | 0 <= k < |order| :: 0 <= order[k] < |cands|
    requires TiesInOrder(cands)
    ensures AlwaysRankedAs(cands, Pick(cands, order))
  {
    var p := Pick(cands, order);
    PickedPermutation(cands, order);
    forall a, b | 0 <= a < b < |p|
      ensures !CppBefore(p[b], p[a])
    {
      assert !KeyOrder(Scores(cands))(order[b], order[a]);
    }
    forall ranked | multiset(ranked) == multiset(cands) && Sorted(ranked, CppBefore)
      ensures ranked == p
    {
      Among(ranked, cands);
      TiesAreSeparated(ranked, cands);
      SortedUnique(ranked, p, CppBefore);
    }
  }

  lemma {:induction false} TiesAreSeparated(ds: seq<Det>, cands: seq<Det>)
    requires TiesInOrder(cands) && forall d | d in ds :: d in cands
    ensures Separated(ds, CppBefore)
  {
    forall i, j | 0 <= i < |ds| && 0 <= j < |ds|
      ensures CppBefore(ds[i], ds[j]) || CppBefore(ds[j], ds[i]) || ds[i] == ds[j]
    {
      assert ds[i] in cands && ds[j] in cands;
      var k :| 0 <= k < |cands| && cands[k] == ds[i];
      var l :| 0 <= l < |cands| && cands[l] == ds[j];
      assert k < l || l < k || k == l;
    }
  }

  /** The native sort may leave two candidates of one score and class in either order. */
  lemma {:induction false} SwapStaysSorted(p: seq<Det>, a: nat, b: nat)
    requires a < |p| && b < |p| && p[a].score == p[b].score && p[a].cls == p[b].cls && Sorted(p, CppBefore)
    ensures Sorted(p[a := p[b]][b := p[a]], CppBefore) && multiset(p[a := p[b]][b := p[a]]) == multiset(p)
  {
    var q := p[a := p[b]][b := p[a]];
    assert forall k | 0 <= k < |p| :: q[k].score == p[k].score && q[k].cls == p[k].cls;
    forall i, j | 0 <= i < j < |q|
      ensures !CppBefore(q[j], q[i])
    {
      assert !CppBefore(p[j], p[i]);
    }
  }

  lemma {:induction false} CppSortedByScore(ranked: seq<Det>)
    requires Sorted(ranked, CppBefore)
    ensures Sorted(ranked, ByScore)
  {
    forall i, j | 0 <= i < j < |ranked|
      ensures !ByScore(ranked[j], ranked[i])
    {
      assert !CppBefore(ranked[j], ranked[i]);
    }
  }

  // ================= suppression =================

  /** Suppressing indices is suppressing what they stand for. */
  lemma {:induction false} SurvivorsOfIndices(cands: seq<Det>, order: seq<int>, cfg: Config)
    requires cfg.classAware && forall k | 0 <= k < |order| :: 0 <= order[k] < |cands|
    ensures var s := Survivors(order, IndexSuppressor(cands, cfg.nmsIou));
            && (forall k | 0 <= k < |s| :: 0 <= s[k] < |cands|)
            && Pick(cands, s) == Survivors(Pick(cands, order), Suppressor(cfg))
  {
    hide IndexSuppresses, Suppresses, Hit;
    if order == [] {
      assert Pick(cands, order) == [];
    } else {
      hide Survivors;
      var init, x := order[..|order| - 1], order[|order| - 1];
      SurvivorsOfIndices(cands, init, cfg);
      IndexStep(cands, init, x, cfg);
      assert order == init + [x];
    }
  }

  lemma {:induction false} IndexStep(cands: seq<Det>, init: seq<int>, x: int, cfg: Config)
    requires cfg.classAware && 0 <= x < |cands| && forall k | 0 <= k < |init| :: 0 <= init[k] < |cands|
    requires var s := Survivors(init, IndexSuppressor(cands, cfg.nmsIou));
             && (forall k | 0 <= k < |s| :: 0 <= s[k] < |cands|)
             && Pick(cands, s) == Survivors(Pick(cands, init), Suppressor(cfg))
    ensures var s := Survivors(init + [x], IndexSuppressor(cands, cfg.nmsIou));
            && (forall k | 0 <= k < |s| :: 0 <= s[k] < |cands|)
            && Pick(cands, s) == Survivors(Pick(cands, init + [x]), Suppressor(cfg))
  {
    hide Survivors, Hit, IndexSuppresses, Suppresses;
    var s := Survivors(init, IndexSuppressor(cands, cfg.nmsIou));
    HitsOfIndices(cands, s, x, cfg);
    SurvivorsSnoc(init, x, IndexSuppressor(cands, cfg.nmsIou));
    SurvivorsSnoc(Pick(cands, init), cands[x], Suppressor(cfg));
    assert Pick(cands, init + [x]) == Pick(cands, init) + [cands[x]];
    assert Pick(cands, s + [x]) == Pick(cands, s) + [cands[x]];
  }

  lemma {:induction false} HitsOfIndices(cands: seq<Det>, s: seq<int>, x: int, cfg: Config)
    requires cfg.classAware && 0 <= x < |cands| && forall k | 0 <= k < |s| :: 0 <= s[k] < |cands|
    ensures Hit(s, x, IndexSuppressor(cands, cfg.nmsIou)) <==> Hit(Pick(cands, s), cands[x], Suppressor(cfg))
  {
    hide Overlaps;
    var f, g := IndexSuppressor(cands, cfg.nmsIou), Suppressor(cfg);
    assert forall k | 0 <= k < |s| :: f(s[k], x) == g(Pick(cands, s)[k], cands[x]);
  }

  lemma {:induction false} SurvivorsStaySorted(ds: seq<Det>, f: (Det, Det) -> bool)
    requires Sorted(ds, ByScore)
    ensures Sorted(Survivors(ds, f), ByScore)
  {
    if ds != [] {
      var n := |ds| - 1;
      SurvivorsStaySorted(ds[..n], f);
      SurvivorsAmong(ds[..n], f);
      var s := Survivors(ds[..n], f);
      forall i | 0 <= i < |s|
        ensures !ByScore(ds[n], s[i])
      {
        assert s[i] in s;
        assert s[i] in ds[..n];
        var k :| 0 <= k < n && ds[..n][k] == s[i];
      }
    }
  }

  /** The second sorts change nothing: what is kept is already in order. */
  lemma {:induction false} SecondSorts(kept: seq<Det>, rows: seq<Det>, final: seq<int>)
    requires Sorted(kept, ByScore) && Separated(kept, ByScore)
    requires multiset(rows) == multiset(kept) && Sorted(rows, ByScore)
    requires IsArgsort(final, Scores(kept))
    ensures rows == kept && final == Indices(|kept|)
  {
    SortedUnique(kept, rows, ByScore);
    var keys := Scores(kept);
    forall i, j | 0 <= i < j < |kept|
      ensures !KeyOrder(keys)(j, i)
    {
      assert !ByScore(kept[j], kept[i]);
    }
    SortedUnique(Indices(|kept|), final, KeyOrder(keys));
  }

  // ================= rows =================

  predicate Inside(d: Det, w: int, h: int) {
    && 0.0 <= d.x1 <= w as real && 0.0 <= d.x2 <= w as real
    && 0.0 <= d.y1 <= h as real && 0.0 <= d.y2 <= h as real
  }

  lemma {:induction false} ClampIsIdentity(v: real, size: int)
    requires size > 0
    ensures Clamp01(v / size as real) == v / size as real <==> 0.0 <= v <= size as real
  {
    var q, s := v / size as real, size as real;
    assert q * s == v;
    assert q < 0.0 ==> q * s < 0.0;
    assert q >= 0.0 ==> q * s >= 0.0;
    assert q > 1.0 ==> q * s > 1.0 * s;
    assert q <= 1.0 ==> q * s <= 1.0 * s;
  }

  /** The normalised rows agree exactly for boxes inside the image: the native decoder clamps. */
  lemma {:induction false} RowsAgree(d: Det, w: int, h: int)
    requires w > 0 && h > 0
    ensures CppRow(d, w, h) == PyRow(d, w, h) <==> Inside(d, w, h)
  {
    ClampIsIdentity(d.x1, w);
    ClampIsIdentity(d.x2, w);
    ClampIsIdentity(d.y1, h);
    ClampIsIdentity(d.y2, h);
    var a, b := CppRow(d, w, h), PyRow(d, w, h);
    assert a == b <==> a[2] == b[2] && a[3] == b[3] && a[4] == b[4] && a[5] == b[5];
  }

  // ================= the tables =================

  /** Both decoders list the same detections. */
  lemma {:induction false} RowsListed(cands: seq<Det>, cfg: Config, ranked: seq<Det>, rows: seq<Det>, order: seq<int>,
                                      kept: seq<int>, final: seq<int>)
    requires cfg.classAware && DistinctScores(cands)
    requires multiset(ranked) == multiset(cands) && Sorted(ranked, CppBefore)
    requires multiset(rows) == multiset(Capped(Survivors(ranked, Suppressor(cfg)), cfg.maxDet)) && Sorted(rows, ByScore)
    requires IsArgsort(order, Scores(cands))
    requires kept == Capped(Survivors(order, IndexSuppressor(cands, cfg.nmsIou)), cfg.maxDet)
    requires forall k | 0 <= k < |kept| :: 0 <= kept[k] < |cands|
    requires IsArgsort(final, Scores(Pick(cands, kept)))
    requires |final| == |kept| && forall k | 0 <= k < |final| :: 0 <= final[k] < |kept|
    ensures rows == Pick(Pick(cands, kept), final) && |rows| <= |kept|
    ensures forall d | d in rows :: d in cands
    ensures |rows| <= (if cfg.maxDet < 0 then 0 else cfg.maxDet)
  {
    hide Survivors, Suppresses, IndexSuppresses;
    ArgsortInRange(order, Scores(cands));
    RankingsAgreeExactly(cands, order);
    SurvivorsOfIndices(cands, order, cfg);
    var all := Survivors(ranked, Suppressor(cfg));
    var best := Capped(all, cfg.maxDet);
    assert Pick(cands, kept) == best;
    CppSortedByScore(ranked);
    SurvivorsStaySorted(ranked, Suppressor(cfg));
    BestAreCandidates(cands, ranked, best, cfg);
    DistinctAreSeparated(best, cands);
    SecondSorts(best, rows, final);
    assert Pick(best, Indices(|best|)) == best;
  }

  lemma {:induction false} BestAreCandidates(cands: seq<Det>, ranked: seq<Det>, best: seq<Det>, cfg: Config)
    requires multiset(ranked) == multiset(cands)
    requires best == Capped(Survivors(ranked, Suppressor(cfg)), cfg.maxDet)
    ensures forall d | d in best :: d in cands
  {
    SurvivorsAmong(ranked, Suppressor(cfg));
    Among(ranked, cands);
  }

  predicate SameTensor(flat: seq<real>, raw: seq<seq<real>>, n: nat) {
    && |flat| == |raw| * n && Rectangular(raw, n)
    && forall r, c | 0 <= r < |raw| && 0 <= c < n :: raw[r][c] == At(flat, |raw|, n, r, c)
  }

  lemma {:induction false} SameColumns(flat: seq<real>, raw: seq<seq<real>>, n: nat)
    requires SameTensor(flat, raw, n) && |raw| >= 4
    ensures Columns(flat, |raw| - 4, n) == ColumnsOf(raw, n)
  {
    forall c | 0 <= c < n
      ensures ColumnAt(flat, |raw| - 4, n, c) == ColumnOf(raw, c)
    {
      assert ColumnAt(flat, |raw| - 4, n, c).scores == ColumnOf(raw, c).scores;
    }
  }

  /** Runs both decoders on one tensor.  If the candidate scores are pairwise distinct, none equals the
      threshold, and the candidate boxes lie inside the image, the two 20x6 tables are equal. */
  method DecodersAgree(flat: seq<real>, raw: seq<seq<real>>, n: nat, cfg: Config, profile: Profile, table: array2<real>)
      returns (py: Result<seq<seq<real>>>)
    requires Supported(raw, profile) && SameTensor(flat, raw, n)
    requires cfg.classCount == profile.classCount && cfg.classAware
    requires cfg.scoreThreshold == profile.scoreThreshold > 0.0 && cfg.nmsIou == profile.nmsIou
    requires cfg.maxDet == profile.maxDetections == 20
    requires cfg.imageW > 0 && cfg.imageH > 0
    requires table.Length0 == 20 && table.Length1 == 6
    requires var cs := ColumnsOf(raw, n);
             && NoneAtThreshold(cs, cfg.scoreThreshold)
             && DistinctScores(CppCandidates(cs, cfg.scoreThreshold))
             && forall d | d in CppCandidates(cs, cfg.scoreThreshold) :: Inside(d, cfg.imageW, cfg.imageH)
    modifies table
    ensures py.Ok? && |py.value| == 20
    ensures forall i, k | 0 <= i < 20 && 0 <= k < 6 :: |py.value[i]| == 6 && table[i, k] == py.value[i][k]
  {
    hide Survivors, Suppresses, IndexSuppresses, CppCandidates, PyCandidates;
    ghost var cs := ColumnsOf(raw, n);
    SameColumns(flat, raw, n);
    SelectionsAgree(cs, cfg.scoreThreshold);
    var _, ranked, rows := PostprocessYoloRaw(flat, n, cfg, table);
    ghost var order, kept, final;
    py, order, kept, final := DecodeYoloRaw(raw, n, profile, cfg.imageW, cfg.imageH);
    RowsListed(CppCandidates(cs, cfg.scoreThreshold), cfg, ranked, rows, order, kept, final);
    forall i | 0 <= i < 20
      ensures py.value[i] == if i < |rows| then CppRow(rows[i], cfg.imageW, cfg.imageH) else ZERO_ROW
    {
      if i < |rows| { assert rows[i] in rows; RowsAgree(rows[i], cfg.imageW, cfg.imageH); }
    }
  }

  // ================= by class =================

  predicate SameClass(f: (Det, Det) -> bool, a: Det, b: Det) {
    a.cls == b.cls && f(a, b)
  }

  /** Suppression within a class only. */
  function ClassAware(f: (Det, Det) -> bool): (Det, Det) -> bool {
    (a, b) => SameClass(f, a, b)
  }

  function InClass(c: int): Det -> bool {
    (d: Det) => d.cls == c
  }

  /** The kept boxes of class `c` are what class-agnostic suppression, the reference worker's loop,
      keeps of the class-`c` candidates. */
  lemma {:induction false} ClassesDecompose(ds: seq<Det>, f: (Det, Det) -> bool, c: int)
    ensures Filter(Survivors(ds, ClassAware(f)), InClass(c)) == Survivors(Filter(ds, InClass(c)), f)
  {
    if ds != [] {
      var init, x := ds[..|ds| - 1], ds[|ds| - 1];
      ClassesDecompose(init, f, c);
      ClassStep(init, x, f, c);
      assert ds == init + [x];
    }
  }

  lemma {:induction false} ClassStep(init: seq<Det>, x: Det, f: (Det, Det) -> bool, c: int)
    requires Filter(Survivors(init, ClassAware(f)), InClass(c)) == Survivors(Filter(init, InClass(c)), f)
    ensures Filter(Survivors(init + [x], ClassAware(f)), InClass(c)) == Survivors(Filter(init + [x], InClass(c)), f)
  {
    hide Survivors, Filter, Hit;
    var s, part := Survivors(init, ClassAware(f)), Filter(init, InClass(c));
    SurvivorsSnoc(init, x, ClassAware(f));
    FilterSnoc(init, x, InClass(c));
    FilterSnoc(s, x, InClass(c));
    if x.cls == c {
      FilterHits(s, InClass(c), x, ClassAware(f));
      HitInClass(s, x, f, c);
      SurvivorsSnoc(part, x, f);
    } else {
      assert part + [] == part;
    }
  }

  lemma {:induction false} FilteredAreInClass(s: seq<Det>, c: int)
    ensures forall k | 0 <= k < |Filter(s, InClass(c))| :: Filter(s, InClass(c))[k].cls == c
  {
    if s != [] {
      FilteredAreInClass(s[..|s| - 1], c);
    }
  }

  lemma {:induction false} HitInClass(s: seq<Det>, x: Det, f: (Det, Det) -> bool, c: int)
    requires x.cls == c
    ensures Hit(Filter(s, InClass(c)), x, ClassAware(f)) <==> Hit(Filter(s, InClass(c)), x, f)
  {
    FilteredAreInClass(s, c);
    var t := Filter(s, InClass(c));
    assert forall k | 0 <= k < |t| :: ClassAware(f)(t[k], x) == f(t[k], x);
  }

  /** The configured class-aware suppression decomposes in this way into the class-agnostic one. */
  lemma {:induction false} ConfiguredClassesDecompose(ds: seq<Det>, cfg: Config, c: int)
    requires cfg.classAware
    ensures Filter(Survivors(ds, Suppressor(cfg)), InClass(c)) ==
            Survivors(Filter(ds, InClass(c)), Suppressor(cfg.(classAware := false)))
  {
    var agnostic := Suppressor(cfg.(classAware := false));
    ClassesDecompose(ds, agnostic, c);
    SameRelation(ds, Suppressor(cfg), ClassAware(agnostic));
  }

  lemma {:induction false} SameRelation(ds: seq<Det>, f: (Det, Det) -> bool, g: (Det, Det) -> bool)
    requires forall a, b :: f(a, b) == g(a, b)
    ensures Survivors(ds, f) == Survivors(ds, g)
  {
    if ds != [] {
      SameRelation(ds[..|ds| - 1], f, g);
    }
  }
}
