/** The native decoder: one pass over the columns, a sort, flag-marking suppression, and a table that
    is overwritten in place. */
module PostprocessYolo {
  import opened Text
  import opened Ranking
  import opened Suppression
  import opened Detections

  predicate CppBefore(a: Det, b: Det) {
    if a.score != b.score then a.score > b.score else a.cls < b.cls
  }

  /** The best positive class score of a column, or class -1. */
  method BestClass(raw: seq<real>, cols: nat, classes: nat, c: nat) returns (best: real, cls: int)
    requires |raw| == (4 + classes) * cols && c < cols
    ensures var s := ColumnAt(raw, classes, cols, c).scores;
            if s == [] || s[FirstMax(s)] <= 0.0 then best == 0.0 && cls == -1
            else cls == FirstMax(s) && best == s[cls]
  {
    ghost var s := ColumnAt(raw, classes, cols, c).scores;
    best, cls := 0.0, -1;
    for k := 0 to classes
      invariant cls == -1 ==> best == 0.0
      invariant cls != -1 ==> 0 <= cls < k && best == s[cls] > 0.0 && forall i | 0 <= i < cls :: s[i] < best
      invariant forall i | 0 <= i < k :: s[i] <= best
    {
      InBounds(4 + k, c, 4 + classes, cols);
      var score := raw[(4 + k) * cols + c];
      assert score == s[k];
      if score > best { best, cls := score, k; }
    }
  }

  method ColumnCandidate(raw: seq<real>, cols: nat, cfg: Config, c: nat) returns (d: Option<Det>)
    requires cfg.classCount >= 0 && |raw| == (4 + cfg.classCount) * cols && c < cols
    ensures d == CppCandidate(ColumnAt(raw, cfg.classCount, cols, c), cfg.scoreThreshold)
  {
    var classes: nat := cfg.classCount;
    var best, cls := BestClass(raw, cols, classes, c);
    if best < cfg.scoreThreshold || cls < 0 { return None; }
    InBounds(0, c, 4 + classes, cols);
    InBounds(1, c, 4 + classes, cols);
    InBounds(2, c, 4 + classes, cols);
    InBounds(3, c, 4 + classes, cols);
    var cx, cy, w, h := raw[0 * cols + c], raw[1 * cols + c], raw[2 * cols + c], raw[3 * cols + c];
    d := Some(Det(best, cls, cx - w * 0.5, cy - h * 0.5, cx + w * 0.5, cy + h * 0.5));
  }

  method Candidates(raw: seq<real>, cols: nat, cfg: Config) returns (dets: seq<Det>)
    requires cfg.classCount >= 0 && |raw| == (4 + cfg.classCount) * cols
    ensures dets == CppCandidates(Columns(raw, cfg.classCount, cols), cfg.scoreThreshold)
  {
    hide ColumnAt, CppCandidate;
    ghost var all := Columns(raw, cfg.classCount, cols);
    dets := [];
    for c := 0 to cols
      invariant dets == CppCandidates(all[..c], cfg.scoreThreshold)
    {
      assert all[..c + 1][..c] == all[..c];
      var d := ColumnCandidate(raw, cols, cfg, c);
      if d.Some? { dets := dets + [d.value]; }
    }
    assert all[..cols] == all;
  }

  /** Flags what box `i` suppresses among the lower-ranked boxes. */
  method Mark(dets: seq<Det>, i: nat, sup: array<bool>, cfg: Config)
    requires i < |dets| == sup.Length
    modifies sup
    ensures forall k | 0 <= k < |dets| ::
              sup[k] == (old(sup[k]) || (i < k && Suppresses(cfg, dets[i], dets[k])))
  {
    hide Overlaps;
    for j := i + 1 to |dets|
      invariant forall k | 0 <= k < |dets| ::
                  sup[k] == (old(sup[k]) || (i < k < j && Suppresses(cfg, dets[i], dets[k])))
    {
      if sup[j] { continue; }
      if cfg.classAware && dets[j].cls != dets[i].cls { continue; }
      if Overlaps(dets[i], dets[j], cfg.nmsIou) { sup[j] := true; }
    }
  }

  /** The marking loop keeps the survivors, up to the cap. */
  method Suppress(dets: seq<Det>, cfg: Config) returns (kept: seq<Det>)
    ensures kept == Capped(Survivors(dets, Suppressor(cfg)), cfg.maxDet)
  {
    hide Suppresses, Hit;
    ghost var f := Suppressor(cfg);
    var n := |dets|;
    var sup := new bool[n](_ => false);
    kept := [];
    NoHits(dets, f);
    var i := 0;
    while i < n && |kept| < cfg.maxDet
      invariant 0 <= i <= n && |kept| <= (if cfg.maxDet < 0 then 0 else cfg.maxDet)
      invariant kept == Survivors(dets[..i], f)
      invariant forall j | i <= j < n :: sup[j] == Hit(kept, dets[j], f)
    {
      assert dets[..i + 1] == dets[..i] + [dets[i]];
      SurvivorsSnoc(dets[..i], dets[i], f);
      if sup[i] {
        i := i + 1;
        continue;
      }
      Mark(dets, i, sup, cfg);
      forall j | i < j < n ensures Hit(kept + [dets[i]], dets[j], f) == (Hit(kept, dets[j], f) || f(dets[i], dets[j])) {
        HitSnoc(kept, dets[i], dets[j], f);
      }
      kept := kept + [dets[i]];
      i := i + 1;
    }
    SurvivorsPrefix(dets, f, i);
    assert dets[..n] == dets;
  }

  lemma {:induction false} NoHits(dets: seq<Det>, f: (Det, Det) -> bool)
    ensures forall j | 0 <= j < |dets| :: !Hit([], dets[j], f)
    ensures Survivors(dets[..0], f) == []
  {
  }

  /** `rows` are the detections of `raw`: `ranked` are the sorted candidates, of which the survivors up
      to the cap are kept and sorted again. */
  predicate Detected(raw: seq<real>, cols: nat, cfg: Config, ranked: seq<Det>, rows: seq<Det>)
    requires cfg.classCount >= 0 && |raw| == (4 + cfg.classCount) * cols
  {
    && multiset(ranked) == multiset(CppCandidates(Columns(raw, cfg.classCount, cols), cfg.scoreThreshold))
    && Sorted(ranked, CppBefore)
    && multiset(rows) == multiset(Capped(Survivors(ranked, Suppressor(cfg)), cfg.maxDet))
    && Sorted(rows, ByScore)
  }

  /** What is detected, in plain arithmetic, when no column has a negative size: the rows are ordered by score;
      no two of a class share more than the limit's part of what they cover; and a candidate is a row, or
      shares more than that with a row of its class ranked before it, unless there are as many rows as
      allowed. */
  lemma {:induction false} TableIsSuppressed(raw: seq<real>, cols: nat, cfg: Config, ranked: seq<Det>, rows: seq<Det>)
    requires cfg.classCount >= 0 && |raw| == (4 + cfg.classCount) * cols && cfg.classAware
    requires Detected(raw, cols, cfg, ranked, rows)
    requires forall k | 2 * cols <= k < 4 * cols && k < |raw| :: raw[k] >= 0.0
    ensures |rows| <= (if cfg.maxDet < 0 then 0 else cfg.maxDet)
    ensures forall i, j | 0 <= i < j < |rows| :: rows[i].score >= rows[j].score
    ensures forall i, j | 0 <= i < j < |rows| && rows[i].cls == rows[j].cls ::
              Intersection(rows[i], rows[j]) <= cfg.nmsIou * Union(rows[i], rows[j])
    ensures forall i | 0 <= i < |ranked| ::
              || ranked[i] in rows || |rows| == (if cfg.maxDet < 0 then 0 else cfg.maxDet)
              || exists j | 0 <= j < i ::
                   && ranked[j] in rows && ranked[j].cls == ranked[i].cls
                   && Intersection(ranked[j], ranked[i]) > cfg.nmsIou * Union(ranked[j], ranked[i])
    ensures forall i, j | 0 <= i < j < |ranked| ::
              ranked[i].score > ranked[j].score
              || (ranked[i].score == ranked[j].score && ranked[i].cls <= ranked[j].cls)
  {
    hide Overlaps, Survivors, Columns, CppCandidates, Intersection, Union;
    var f := Suppressor(cfg);
    var kept := Capped(Survivors(ranked, f), cfg.maxDet);
    RankedAreProper(raw, cols, cfg, ranked);
    SurvivorsAmong(ranked, f);
    SameElements(rows, kept);
    KeptAreApart(ranked, f);
    forall i, j | 0 <= i < j < |rows| && rows[i].cls == rows[j].cls
      ensures Intersection(rows[i], rows[j]) <= cfg.nmsIou * Union(rows[i], rows[j])
    {
      ApartBothWays(kept, cfg);
      PairsPermute(rows, kept, (a, b) => !f(a, b), i, j);
      OverlapsAbove(rows[i], rows[j], cfg.nmsIou);
    }
    forall i | 0 <= i < |ranked| && ranked[i] !in rows && |rows| != (if cfg.maxDet < 0 then 0 else cfg.maxDet)
      ensures exists j | 0 <= j < i ::
                && ranked[j] in rows && ranked[j].cls == ranked[i].cls
                && Intersection(ranked[j], ranked[i]) > cfg.nmsIou * Union(ranked[j], ranked[i])
    {
      DroppedAreHit(ranked, f, cfg.maxDet, i);
      var j :| 0 <= j < i && ranked[j] in kept && f(ranked[j], ranked[i]);
      OverlapsAbove(ranked[j], ranked[i], cfg.nmsIou);
    }
  }

  /** Suppression of proper boxes does not depend on their order. */
  lemma {:induction false} ApartBothWays(kept: seq<Det>, cfg: Config)
    requires forall d | d in kept :: Proper(d)
    requires forall i, j | 0 <= i < j < |kept| :: !Suppressor(cfg)(kept[i], kept[j])
    ensures forall i, j | 0 <= i < j < |kept| :: !Suppressor(cfg)(kept[j], kept[i])
  {
    hide Overlaps;
    forall i, j | 0 <= i < j < |kept|
      ensures !Suppressor(cfg)(kept[j], kept[i])
    {
      IouInRange(kept[i], kept[j]);
    }
  }

  lemma {:induction false} SameElements(a: seq<Det>, b: seq<Det>)
    requires multiset(a) == multiset(b)
    ensures |a| == |b| && forall d :: d in a <==> d in b
  {
    assert |multiset(a)| == |multiset(b)|;
    assert forall d :: d in a <==> d in multiset(a);
    assert forall d :: d in b <==> d in multiset(b);
  }

  lemma {:induction false} RankedAreProper(raw: seq<real>, cols: nat, cfg: Config, ranked: seq<Det>)
    requires cfg.classCount >= 0 && |raw| == (4 + cfg.classCount) * cols
    requires multiset(ranked) == multiset(CppCandidates(Columns(raw, cfg.classCount, cols), cfg.scoreThreshold))
    requires forall k | 2 * cols <= k < 4 * cols && k < |raw| :: raw[k] >= 0.0
    ensures forall d | d in ranked :: Proper(d)
  {
    hide CppCandidates;
    var cs := Columns(raw, cfg.classCount, cols);
    forall c | 0 <= c < cols
      ensures cs[c].w >= 0.0 && cs[c].h >= 0.0
    {
      ColumnLies(raw, cfg.classCount, cols, c);
    }
    CandidatesAreProper(cs, cfg.scoreThreshold);
    SameElements(ranked, CppCandidates(cs, cfg.scoreThreshold));
  }

  lemma {:induction false} CandidatesAreProper(cs: seq<Column>, threshold: real)
    requires forall c | 0 <= c < |cs| :: cs[c].w >= 0.0 && cs[c].h >= 0.0
    ensures forall d | d in CppCandidates(cs, threshold) :: Proper(d)
  {
    hide FirstMax;
    if cs != [] {
      CandidatesAreProper(cs[..|cs| - 1], threshold);
      assert CppCandidate(cs[|cs| - 1], threshold).Some? ==> Proper(CppCandidate(cs[|cs| - 1], threshold).value);
    }
  }

  /** Decodes into `table`, which is overwritten.  `ranked` and `rows` are the two sorted lists. */
  method PostprocessYoloRaw(raw: seq<real>, cols: nat, cfg: Config, table: array2<real>)
      returns (count: int, ghost ranked: seq<Det>, ghost rows: seq<Det>)
    requires cfg.classCount >= 0 && |raw| == (4 + cfg.classCount) * cols
    requires cfg.imageW > 0 && cfg.imageH > 0
    requires table.Length0 == 20 && table.Length1 == 6
    modifies table
    ensures Detected(raw, cols, cfg, ranked, rows)
    ensures count == |rows|
    ensures forall i, k | 0 <= i < 20 && 0 <= k < 6 ::
              table[i, k] == if i < |rows| then CppRow(rows[i], cfg.imageW, cfg.imageH)[k] else 0.0
  {
    var dets := Candidates(raw, cols, cfg);
    dets := Sort(dets, CppBefore);
    ranked := dets;
    var kept := Suppress(dets, cfg);
    kept := Sort(kept, ByScore);
    rows := kept;
    forall i, k | 0 <= i < 20 && 0 <= k < 6 { table[i, k] := 0.0; }
    var i := 0;
    while i < |kept| && i < 20
      invariant 0 <= i <= |kept| && i <= 20
      invariant forall r, k | 0 <= r < 20 && 0 <= k < 6 ::
                  table[r, k] == if r < i then CppRow(rows[r], cfg.imageW, cfg.imageH)[k] else 0.0
    {
      WriteRow(table, i, kept[i], cfg);
      i := i + 1;
    }
    count := |kept|;
  }

  method WriteRow(table: array2<real>, i: nat, d: Det, cfg: Config)
    requires table.Length0 == 20 && table.Length1 == 6 && i < 20
    requires cfg.imageW > 0 && cfg.imageH > 0
    modifies table
    ensures forall k | 0 <= k < 6 :: table[i, k] == CppRow(d, cfg.imageW, cfg.imageH)[k]
    ensures forall r, k | 0 <= r < 20 && 0 <= k < 6 && r != i :: table[r, k] == old(table[r, k])
  {
    var y1 := Clamp01(d.y1 / cfg.imageH as real);
    var x1 := Clamp01(d.x1 / cfg.imageW as real);
    var y2 := Clamp01(d.y2 / cfg.imageH as real);
    var x2 := Clamp01(d.x2 / cfg.imageW as real);
    table[i, 0] := d.cls as real;
    table[i, 1] := d.score;
    table[i, 2] := y1;
    table[i, 3] := x1;
    table[i, 4] := y2;
    table[i, 5] := x2;
  }
}
