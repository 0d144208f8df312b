/** The supervisor's decoder: vectorised selection, a stable argsort, and a list of indices that shrinks
    until it is empty or the cap is reached. */
module DecodeYolo {
  import opened Text
  import opened Ranking
  import opened Suppression
  import opened Detections

  datatype Profile = Profile(
    layout: string, coordinateUnits: string, classCount: int, objectness: bool,
    scoreThreshold: real, nmsIou: real, maxDetections: nat)

  datatype Result<+T> = Ok(value: T) | Err(error: string)

  /** Column `c` of a two-dimensional array. */
  function ColumnOf(raw: seq<seq<real>>, c: nat): Column
    requires |raw| >= 4 && forall r | 0 <= r < |raw| :: c < |raw[r]|
  {
    Column(raw[0][c], raw[1][c], raw[2][c], raw[3][c],
           seq(|raw| - 4, k requires 0 <= k < |raw| - 4 => raw[4 + k][c]))
  }

  predicate Rectangular(raw: seq<seq<real>>, n: nat) {
    forall r | 0 <= r < |raw| :: |raw[r]| == n
  }

  function ColumnsOf(raw: seq<seq<real>>, n: nat): seq<Column>
    requires |raw| >= 4 && Rectangular(raw, n)
  {
    seq(n, c requires 0 <= c < n => ColumnOf(raw, c))
  }

  // ---- argsort(-keys, kind="stable") ----

  function Indices(n: nat): seq<int> {
    seq(n, i => i)
  }

  function Key(keys: seq<real>, i: int): real {
    if 0 <= i < |keys| then keys[i] else 0.0
  }

  /** Larger keys first, equal keys in their original order. */
  function KeyOrder(keys: seq<real>): (int, int) -> bool {
    (i, j) => Key(keys, i) > Key(keys, j) || (Key(keys, i) == Key(keys, j) && i < j)
  }

  predicate IsArgsort(order: seq<int>, keys: seq<real>) {
    multiset(order) == multiset(Indices(|keys|)) && Sorted(order, KeyOrder(keys))
  }

  method Argsort(keys: seq<real>) returns (order: seq<int>)
    ensures IsArgsort(order, keys)
  {
    order := Sort(Indices(|keys|), KeyOrder(keys));
  }

  lemma {:induction false} ArgsortInRange(order: seq<int>, keys: seq<real>)
    requires IsArgsort(order, keys)
    ensures |order| == |keys| && forall k | 0 <= k < |order| :: 0 <= order[k] < |keys|
  {
    assert |multiset(order)| == |multiset(Indices(|keys|))|;
    forall k | 0 <= k < |order|
      ensures 0 <= order[k] < |keys|
    {
      assert order[k] in multiset(order);
      assert order[k] in multiset(Indices(|keys|));
    }
  }

  // ---- suppression on indices ----

  predicate IndexSuppresses(cands: seq<Det>, nmsIou: real, i: int, j: int) {
    && 0 <= i < |cands| && 0 <= j < |cands|
    && cands[j].cls == cands[i].cls && Overlaps(cands[i], cands[j], nmsIou)
  }

  function IndexSuppressor(cands: seq<Det>, nmsIou: real): (int, int) -> bool {
    (i, j) => IndexSuppresses(cands, nmsIou, i, j)
  }

  /** `rest[~(same & (ious > nms_iou))]` */
  method DropHits(cands: seq<Det>, nmsIou: real, i: int, rest: seq<int>) returns (r: seq<int>)
    ensures r == Unhit(rest, i, IndexSuppressor(cands, nmsIou))
  {
    hide IndexSuppresses;
    ghost var f := IndexSuppressor(cands, nmsIou);
    r := [];
    for k := 0 to |rest|
      invariant r + Unhit(rest[k..], i, f) == Unhit(rest, i, f)
    {
      UnhitStep(rest, k, r, i, f);
      if !IndexSuppresses(cands, nmsIou, i, rest[k]) { r := r + [rest[k]]; }
    }
  }

  lemma {:induction false} UnhitStep(rest: seq<int>, k: nat, r: seq<int>, i: int, f: (int, int) -> bool)
    requires k < |rest|
    ensures r + Unhit(rest[k..], i, f) == (if f(i, rest[k]) then r else r + [rest[k]]) + Unhit(rest[k + 1..], i, f)
  {
    assert rest[k..][1..] == rest[k + 1..];
  }

  method Suppress(cands: seq<Det>, nmsIou: real, cap: nat, order0: seq<int>) returns (kept: seq<int>)
    ensures kept == Capped(Survivors(order0, IndexSuppressor(cands, nmsIou)), cap)
  {
    ghost var f := IndexSuppressor(cands, nmsIou);
    var order := order0;
    kept := [];
    while order != [] && |kept| < cap
      invariant |kept| <= cap
      invariant kept + Shrinking(order, f) == Shrinking(order0, f)
      decreases |order|
    {
      var i := order[0];
      ghost var was := kept;
      kept := kept + [i];
      ShrinkStep(was, order, f);
      if |order| == 1 {
        order := [];
        break;
      }
      order := DropHits(cands, nmsIou, i, order[1..]);
    }
    ShrinkingKeepsSurvivors(order0, f);
    CutOff(kept, Shrinking(order, f), cap);
  }

  lemma {:induction false} CutOff(kept: seq<int>, more: seq<int>, cap: nat)
    requires |kept| <= cap && (more == [] || |kept| == cap)
    ensures Capped(kept + more, cap) == kept
  {
  }

  lemma {:induction false} ShrinkStep(was: seq<int>, order: seq<int>, f: (int, int) -> bool)
    requires order != []
    ensures was + Shrinking(order, f) == (was + [order[0]]) + Shrinking(Unhit(order[1..], order[0], f), f)
    ensures |order| == 1 ==> Unhit(order[1..], order[0], f) == []
  {
  }

  // ---- the decoder ----

  function Scores(cands: seq<Det>): seq<real> {
    seq(|cands|, i requires 0 <= i < |cands| => cands[i].score)
  }

  /** The detections at the given positions. */
  function Pick(cands: seq<Det>, order: seq<int>): (ds: seq<Det>)
    requires forall k | 0 <= k < |order| :: 0 <= order[k] < |cands|
    ensures |ds| == |order|
  {
    seq(|order|, k requires 0 <= k < |order| => cands[order[k]])
  }

  method Select(cs: seq<Column>, threshold: real) returns (cands: seq<Det>)
    requires forall i | 0 <= i < |cs| :: cs[i].scores != []
    ensures cands == PyCandidates(cs, threshold)
  {
    hide PyCandidate;
    cands := [];
    for c := 0 to |cs|
      invariant cands == PyCandidates(cs[..c], threshold)
    {
      assert cs[..c + 1][..c] == cs[..c];
      var d := PyCandidate(cs[c], threshold);
      if d.Some? { cands := cands + [d.value]; }
    }
    assert cs[..|cs|] == cs;
  }

  function TableRow(rows: seq<Det>, r: nat, w: int, h: int): seq<real>
    requires w > 0 && h > 0
  {
    if r < |rows| then PyRow(rows[r], w, h) else ZERO_ROW
  }

  predicate Supported(raw: seq<seq<real>>, profile: Profile) {
    && profile.layout == "cxcywh" && profile.coordinateUnits == "pixels" && !profile.objectness
    && profile.classCount > 0 && |raw| == 4 + profile.classCount
  }

  /** `cands`, `order` and `final` are the selection and the two argsorts that led to the table. */
  method DecodeYoloRaw(raw: seq<seq<real>>, n: nat, profile: Profile, w: int, h: int)
      returns (r: Result<seq<seq<real>>>, ghost order: seq<int>, ghost kept: seq<int>, ghost final: seq<int>)
    requires Rectangular(raw, n) && w > 0 && h > 0
    ensures r.Ok? <==> Supported(raw, profile)
    ensures r.Ok? <==> profile.layout == "cxcywh" && profile.coordinateUnits == "pixels" && !profile.objectness
                       && 0 < profile.classCount == |raw| - 4
    ensures r.Ok? ==>
              var cands := PyCandidates(ColumnsOf(raw, n), profile.scoreThreshold);
              && IsArgsort(order, Scores(cands))
              && kept == Capped(Survivors(order, IndexSuppressor(cands, profile.nmsIou)), profile.maxDetections)
              && (forall k | 0 <= k < |kept| :: 0 <= kept[k] < |cands|)
              && IsArgsort(final, Scores(Pick(cands, kept)))
              && |final| == |kept| && (forall k | 0 <= k < |final| :: 0 <= final[k] < |kept|)
              && |r.value| == profile.maxDetections
              && forall i | 0 <= i < profile.maxDetections ::
                   r.value[i] == TableRow(Pick(Pick(cands, kept), final), i, w, h)
  {
    order, kept, final := [], [], [];
    if profile.layout != "cxcywh" || profile.coordinateUnits != "pixels" {
      r := Err("unsupported raw contract");
      return;
    }
    if profile.objectness { r := Err("objectness profiles need an explicit contract"); return; }
    if |raw| != 4 + profile.classCount { r := Err("raw shape incompatible with class_count"); return; }
    if profile.classCount <= 0 { r := Err("zero-size array to reduction operation maximum"); return; }
    var cands := Select(ColumnsOf(raw, n), profile.scoreThreshold);
    var sorted := Argsort(Scores(cands));
    var best := Suppress(cands, profile.nmsIou, profile.maxDetections, sorted);
    ArgsortInRange(sorted, Scores(cands));
    KeptInRange(sorted, IndexSuppressor(cands, profile.nmsIou), profile.maxDetections);
    var rows := Pick(cands, best);
    var last := Argsort(Scores(rows));
    ArgsortInRange(last, Scores(rows));
    order, kept, final := sorted, best, last;
    var det := Pick(rows, last);
    r := Ok(seq(profile.maxDetections, i requires 0 <= i => TableRow(det, i, w, h)));
  }

  lemma {:induction false} KeptInRange(order: seq<int>, f: (int, int) -> bool, cap: nat)
    ensures var kept := Capped(Survivors(order, f), cap);
            |kept| <= cap && forall k | 0 <= k < |kept| :: kept[k] in order
  {
    hide Survivors;
    SurvivorsAmong(order, f);
    var kept := Capped(Survivors(order, f), cap);
    forall k | 0 <= k < |kept|
      ensures kept[k] in order
    {
      assert kept[k] == Survivors(order, f)[k];
    }
  }

  /** No two kept candidates of a class share more than the limit's part of what they cover. */
  lemma {:induction false} KeptShareLittle(cands: seq<Det>, order: seq<int>, limit: real, cap: int)
    requires forall d | d in cands :: Proper(d)
    requires forall k | 0 <= k < |order| :: 0 <= order[k] < |cands|
    ensures var kept := Capped(Survivors(order, IndexSuppressor(cands, limit)), cap);
            && |kept| <= (if cap < 0 then 0 else cap) && (forall k | 0 <= k < |kept| :: 0 <= kept[k] < |cands|)
            && forall i, j | 0 <= i < j < |kept| && cands[kept[i]].cls == cands[kept[j]].cls ::
                 Intersection(cands[kept[i]], cands[kept[j]]) <= limit * Union(cands[kept[i]], cands[kept[j]])
  {
    hide Overlaps, Survivors, Intersection, Union;
    var f := IndexSuppressor(cands, limit);
    KeptAreApart(order, f);
    SurvivorsAmong(order, f);
    var kept := Capped(Survivors(order, f), cap);
    forall k | 0 <= k < |kept|
      ensures kept[k] in Survivors(order, f) && 0 <= kept[k] < |cands|
    {
      assert kept[k] == Survivors(order, f)[k];
    }
    forall i, j | 0 <= i < j < |kept| && cands[kept[i]].cls == cands[kept[j]].cls
      ensures Intersection(cands[kept[i]], cands[kept[j]]) <= limit * Union(cands[kept[i]], cands[kept[j]])
    {
      assert !f(Survivors(order, f)[i], Survivors(order, f)[j]);
      OverlapsAbove(cands[kept[i]], cands[kept[j]], limit);
    }
  }

  /** Every candidate is kept, or shares more than that with a kept one of its class ranked before it, unless
      there are as many as allowed. */
  lemma {:induction false} DroppedShareMuch(cands: seq<Det>, order: seq<int>, limit: real, cap: int)
    requires forall d | d in cands :: Proper(d)
    requires forall k | 0 <= k < |order| :: 0 <= order[k] < |cands|
    ensures var kept := Capped(Survivors(order, IndexSuppressor(cands, limit)), cap);
            forall i | 0 <= i < |order| ::
              || order[i] in kept || |kept| == (if cap < 0 then 0 else cap)
              || exists j | 0 <= j < i ::
                   && order[j] in kept && cands[order[j]].cls == cands[order[i]].cls
                   && Intersection(cands[order[j]], cands[order[i]]) > limit * Union(cands[order[j]], cands[order[i]])
  {
    hide Overlaps, Survivors, Intersection, Union;
    var f := IndexSuppressor(cands, limit);
    var kept := Capped(Survivors(order, f), cap);
    forall i | 0 <= i < |order| && order[i] !in kept && |kept| != (if cap < 0 then 0 else cap)
      ensures exists j | 0 <= j < i ::
                && order[j] in kept && cands[order[j]].cls == cands[order[i]].cls
                && Intersection(cands[order[j]], cands[order[i]]) > limit * Union(cands[order[j]], cands[order[i]])
    {
      DroppedAreHit(order, f, cap, i);
      var j :| 0 <= j < i && order[j] in kept && f(order[j], order[i]);
      OverlapsAbove(cands[order[j]], cands[order[i]], limit);
    }
  }

  /** An argsort goes by falling score, and by column where scores tie. */
  lemma {:induction false} RankedByScore(cands: seq<Det>, order: seq<int>)
    requires IsArgsort(order, Scores(cands)) && forall k | 0 <= k < |order| :: 0 <= order[k] < |cands|
    ensures forall i, j | 0 <= i < j < |order| ::
              cands[order[i]].score > cands[order[j]].score
              || (cands[order[i]].score == cands[order[j]].score && order[i] <= order[j])
  {
    forall i, j | 0 <= i < j < |order|
      ensures cands[order[i]].score > cands[order[j]].score
              || (cands[order[i]].score == cands[order[j]].score && order[i] <= order[j])
    {
      assert !KeyOrder(Scores(cands))(order[j], order[i]);
    }
  }

  /** If no column has a negative size, nor has any candidate. */
  lemma {:induction false} SelectedAreProper(raw: seq<seq<real>>, n: nat, threshold: real)
    requires |raw| >= 5 && Rectangular(raw, n) && forall c | 0 <= c < n :: raw[2][c] >= 0.0 && raw[3][c] >= 0.0
    ensures forall d | d in PyCandidates(ColumnsOf(raw, n), threshold) :: Proper(d)
  {
    SelectionIsProper(ColumnsOf(raw, n), threshold);
  }

  lemma {:induction false} SelectionIsProper(cs: seq<Column>, threshold: real)
    requires forall c | 0 <= c < |cs| :: cs[c].scores != [] && cs[c].w >= 0.0 && cs[c].h >= 0.0
    ensures forall d | d in PyCandidates(cs, threshold) :: Proper(d)
  {
    hide FirstMax;
    if cs != [] {
      SelectionIsProper(cs[..|cs| - 1], threshold);
      assert PyCandidate(cs[|cs| - 1], threshold).Some? ==> Proper(PyCandidate(cs[|cs| - 1], threshold).value);
    }
  }
}
