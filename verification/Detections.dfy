/** Raw YOLO output over the reals: columns, boxes, overlap, and what counts as a candidate. */
module Detections {
  import opened Text

  datatype Det = Det(score: real, cls: int, x1: real, y1: real, x2: real, y2: real)

  /** One column of the raw [4 + C, N] tensor. */
  datatype Column = Column(cx: real, cy: real, w: real, h: real, scores: seq<real>)

  datatype Config = Config(
    imageW: int, imageH: int, classCount: int,
    scoreThreshold: real, nmsIou: real, maxDet: int, classAware: bool)

  const EPSILON := 0.000000001

  function Max(a: real, b: real): real { if a < b then b else a }

  function Min(a: real, b: real): real { if b < a then b else a }

  function Area(d: Det): real {
    (d.x2 - d.x1) * (d.y2 - d.y1)
  }

  function Intersection(a: Det, b: Det): real {
    Max(0.0, Min(a.x2, b.x2) - Max(a.x1, b.x1)) * Max(0.0, Min(a.y2, b.y2) - Max(a.y1, b.y1))
  }

  function Union(a: Det, b: Det): real {
    Area(a) + Area(b) - Intersection(a, b) + EPSILON
  }

  /** `inter / union > limit`; a zero union makes the quotient infinite or not a number. */
  predicate Overlaps(a: Det, b: Det, limit: real) {
    if Union(a, b) == 0.0 then Intersection(a, b) > 0.0 else Intersection(a, b) / Union(a, b) > limit
  }

  predicate Suppresses(cfg: Config, a: Det, b: Det) {
    (cfg.classAware ==> a.cls == b.cls) && Overlaps(a, b, cfg.nmsIou)
  }

  function Suppressor(cfg: Config): (Det, Det) -> bool {
    (a, b) => Suppresses(cfg, a, b)
  }

  predicate ByScore(a: Det, b: Det) {
    a.score > b.score
  }

  // ---- boxes ----

  predicate Proper(d: Det) {
    d.x1 <= d.x2 && d.y1 <= d.y2
  }

  lemma {:induction false} ProductBelow(a: real, b: real, c: real, d: real)
    requires 0.0 <= a <= c && 0.0 <= b <= d
    ensures 0.0 <= a * b <= c * d
  {
    assert a * b <= c * b <= c * d;
  }

  lemma {:induction false} IntersectionBelow(a: Det, b: Det)
    requires Proper(a) && Proper(b)
    ensures 0.0 <= Intersection(a, b) <= Area(a)
    ensures Intersection(a, b) <= Area(b)
  {
    var w := Max(0.0, Min(a.x2, b.x2) - Max(a.x1, b.x1));
    var h := Max(0.0, Min(a.y2, b.y2) - Max(a.y1, b.y1));
    ProductBelow(w, h, a.x2 - a.x1, a.y2 - a.y1);
    ProductBelow(w, h, b.x2 - b.x1, b.y2 - b.y1);
  }

  lemma {:induction false} QuotientBelowOne(p: real, q: real)
    requires 0.0 <= p < q
    ensures 0.0 <= p / q < 1.0
  {
    var r := p / q;
    assert r * q == p;
    if r >= 1.0 { ProductBelow(1.0, q, r, q); }
    if r < 0.0 { ProductBelow(0.0, q, -r, q); }
  }

  /** For boxes of non-negative size the denominator is positive and the quotient, an intersection
      over union, lies in [0, 1); it does not depend on the order of the two boxes. */
  lemma {:induction false} IouInRange(a: Det, b: Det)
    requires Proper(a) && Proper(b)
    ensures Union(a, b) >= EPSILON && 0.0 <= Intersection(a, b) / Union(a, b) < 1.0
    ensures forall limit :: Overlaps(a, b, limit) <==> Overlaps(b, a, limit)
  {
    IntersectionBelow(a, b);
    QuotientBelowOne(Intersection(a, b), Union(a, b));
  }

  /** Boxes without a common interior share nothing. */
  lemma {:induction false} ApartShareNothing(a: Det, b: Det, limit: real)
    requires Proper(a) && Proper(b) && limit >= 0.0
    requires a.x2 <= b.x1 || b.x2 <= a.x1 || a.y2 <= b.y1 || b.y2 <= a.y1
    ensures Intersection(a, b) == 0.0 && !Overlaps(a, b, limit)
  {
    IouInRange(a, b);
    OverlapsAbove(a, b, limit);
    assert limit * Union(a, b) >= 0.0;
  }

  /** For any others the intersection is the area of the box `c` they have in common, the union what both
      cover together and a little more, and they overlap exactly if the one exceeds the limit's share of the
      other. */
  lemma {:induction false} OverlapIsCommonBox(a: Det, b: Det, c: Det, limit: real)
    requires Proper(a) && Proper(b) && Proper(c)
    requires a.x1 <= c.x1 && b.x1 <= c.x1 && (c.x1 == a.x1 || c.x1 == b.x1)
    requires a.y1 <= c.y1 && b.y1 <= c.y1 && (c.y1 == a.y1 || c.y1 == b.y1)
    requires c.x2 <= a.x2 && c.x2 <= b.x2 && (c.x2 == a.x2 || c.x2 == b.x2)
    requires c.y2 <= a.y2 && c.y2 <= b.y2 && (c.y2 == a.y2 || c.y2 == b.y2)
    ensures var common := (c.x2 - c.x1) * (c.y2 - c.y1);
            var covered := (a.x2 - a.x1) * (a.y2 - a.y1) + (b.x2 - b.x1) * (b.y2 - b.y1) - common + 0.000000001;
            && Intersection(a, b) == common && Union(a, b) == covered
            && (Overlaps(a, b, limit) <==> common > limit * covered)
  {
    hide Overlaps, Max, Min;
    CommonSide(a.x1, a.x2, b.x1, b.x2, c.x1, c.x2);
    CommonSide(a.y1, a.y2, b.y1, b.y2, c.y1, c.y2);
    OverlapsAbove(a, b, limit);
  }

  lemma {:induction false} CommonSide(a1: real, a2: real, b1: real, b2: real, c1: real, c2: real)
    requires a1 <= c1 <= c2 <= a2 && b1 <= c1 && c2 <= b2 && (c1 == a1 || c1 == b1) && (c2 == a2 || c2 == b2)
    ensures Max(0.0, Min(a2, b2) - Max(a1, b1)) == c2 - c1
  {
  }

  lemma {:induction false} OverlapsAbove(a: Det, b: Det, limit: real)
    requires Proper(a) && Proper(b)
    ensures Overlaps(a, b, limit) <==> Intersection(a, b) > limit * Union(a, b)
  {
    IouInRange(a, b);
    QuotientAbove(Intersection(a, b), Union(a, b), limit);
  }

  lemma {:induction false} QuotientAbove(p: real, q: real, limit: real)
    requires q > 0.0
    ensures p / q > limit <==> p > limit * q
  {
    var r := p / q;
    assert r * q == p;
    assert r > limit ==> (r - limit) * q > 0.0;
    assert r <= limit ==> (limit - r) * q >= 0.0;
  }

  /** A box overlaps one inside it exactly if the inner one is large enough. */
  lemma {:induction false} NestedOverlap(a: Det, b: Det, limit: real)
    requires Proper(a) && Proper(b)
    requires a.x1 <= b.x1 && b.x2 <= a.x2 && a.y1 <= b.y1 && b.y2 <= a.y2
    ensures Overlaps(a, b, limit) <==>
            (b.x2 - b.x1) * (b.y2 - b.y1) > limit * ((a.x2 - a.x1) * (a.y2 - a.y1) + 0.000000001)
  {
    OverlapIsCommonBox(a, b, b, limit);
  }

  // ---- columns ----

  lemma {:induction false} InBounds(r: nat, c: nat, rows: nat, cols: nat)
    requires r < rows && c < cols
    ensures 0 <= r * cols + c < rows * cols
  {
    assert (r + 1) * cols <= rows * cols;
  }

  function At(raw: seq<real>, rows: nat, cols: nat, r: nat, c: nat): real
    requires |raw| == rows * cols && r < rows && c < cols
  {
    InBounds(r, c, rows, cols);
    raw[r * cols + c]
  }

  /** Column `c` of a row-major buffer. */
  function ColumnAt(raw: seq<real>, classes: nat, cols: nat, c: nat): Column
    requires |raw| == (4 + classes) * cols && c < cols
  {
    var rows := 4 + classes;
    Column(At(raw, rows, cols, 0, c), At(raw, rows, cols, 1, c),
           At(raw, rows, cols, 2, c), At(raw, rows, cols, 3, c),
           seq(classes, k requires 0 <= k < classes => At(raw, rows, cols, 4 + k, c)))
  }

  function Columns(raw: seq<real>, classes: nat, cols: nat): seq<Column>
    requires |raw| == (4 + classes) * cols
  {
    seq(cols, c requires 0 <= c < cols => ColumnAt(raw, classes, cols, c))
  }

  /** The first position of the maximum. */
  function FirstMax(s: seq<real>): (m: nat)
    requires s != []
    ensures m < |s| && forall i | 0 <= i < |s| :: s[i] <= s[m]
    ensures forall i | 0 <= i < m :: s[i] < s[m]
  {
    if |s| == 1 then 0
    else
      var m := FirstMax(s[..|s| - 1]);
      if s[|s| - 1] > s[m] then |s| - 1 else m
  }

  function BoxOf(col: Column, score: real, cls: int): Det {
    Det(score, cls, col.cx - col.w / 2.0, col.cy - col.h / 2.0, col.cx + col.w / 2.0, col.cy + col.h / 2.0)
  }

  /** The C++ rule: the best class has a positive score that is not below the threshold. */
  function CppCandidate(col: Column, threshold: real): Option<Det> {
    if col.scores == [] then None
    else
      var m := FirstMax(col.scores);
      var best := col.scores[m];
      if best <= 0.0 || best < threshold then None else Some(BoxOf(col, best, m))
  }

  /** The Python rule: the best score is above the threshold. */
  function PyCandidate(col: Column, threshold: real): Option<Det>
    requires col.scores != []
  {
    var m := FirstMax(col.scores);
    if col.scores[m] > threshold then Some(BoxOf(col, col.scores[m], m)) else None
  }

  function CppCandidates(cs: seq<Column>, threshold: real): seq<Det> {
    if cs == [] then []
    else
      var init := CppCandidates(cs[..|cs| - 1], threshold);
      match CppCandidate(cs[|cs| - 1], threshold)
      case None => init
      case Some(d) => init + [d]
  }

  function PyCandidates(cs: seq<Column>, threshold: real): seq<Det>
    requires forall i | 0 <= i < |cs| :: cs[i].scores != []
  {
    if cs == [] then []
    else
      var init := PyCandidates(cs[..|cs| - 1], threshold);
      match PyCandidate(cs[|cs| - 1], threshold)
      case None => init
      case Some(d) => init + [d]
  }

  lemma {:induction false} AtLies(raw: seq<real>, rows: nat, cols: nat, r: nat, c: nat)
    requires |raw| == rows * cols && r < rows && c < cols
    ensures 0 <= r * cols + c < |raw| && At(raw, rows, cols, r, c) == raw[r * cols + c]
  {
    InBounds(r, c, rows, cols);
  }

  /** Where the scores of column `c` of a row-major buffer lie. */
  lemma {:induction false} ScoreLies(raw: seq<real>, classes: nat, cols: nat, c: nat, k: nat)
    requires |raw| == (4 + classes) * cols && c < cols && k < classes
    ensures 0 <= (4 + k) * cols + c < |raw|
    ensures ColumnAt(raw, classes, cols, c).scores[k] == raw[(4 + k) * cols + c]
  {
    hide At;
    AtLies(raw, 4 + classes, cols, 4 + k, c);
  }

  /** Where its box lies. */
  lemma {:induction false} ColumnLies(raw: seq<real>, classes: nat, cols: nat, c: nat)
    requires |raw| == (4 + classes) * cols && c < cols
    ensures var col := ColumnAt(raw, classes, cols, c);
            && |raw| > 3 * cols + c && col.cx == raw[c] && col.cy == raw[cols + c]
            && col.w == raw[2 * cols + c] && col.h == raw[3 * cols + c] && |col.scores| == classes
  {
    hide At;
    AtLies(raw, 4 + classes, cols, 0, c);
    AtLies(raw, 4 + classes, cols, 1, c);
    AtLies(raw, 4 + classes, cols, 2, c);
    AtLies(raw, 4 + classes, cols, 3, c);
  }

  /** When the two decoders take a column, and what they take it for: its first best class with that class's
      score, and a box of the column's size around its centre. */
  lemma {:induction false} TakenColumns(col: Column, threshold: real)
    ensures CppCandidate(col, threshold).Some? <==>
            exists k | 0 <= k < |col.scores| :: col.scores[k] > 0.0 && col.scores[k] >= threshold
    ensures col.scores != [] ==>
              (PyCandidate(col, threshold).Some? <==> exists k | 0 <= k < |col.scores| :: col.scores[k] > threshold)
    ensures forall d | CppCandidate(col, threshold) == Some(d)
                       || (col.scores != [] && PyCandidate(col, threshold) == Some(d)) ::
              && 0 <= d.cls < |col.scores| && d.score == col.scores[d.cls]
              && (forall k | 0 <= k < d.cls :: col.scores[k] < d.score)
              && (forall k | d.cls < k < |col.scores| :: col.scores[k] <= d.score)
              && d.x1 + d.x2 == 2.0 * col.cx && d.x2 - d.x1 == col.w
              && d.y1 + d.y2 == 2.0 * col.cy && d.y2 - d.y1 == col.h
  {
  }

  /** Every column that is taken is listed once, in the order of the columns. */
  lemma {:induction false} CandidatesListed(cs: seq<Column>, threshold: real, i: nat)
    requires i < |cs|
    ensures var before := CppCandidates(cs[..i], threshold);
            && before <= CppCandidates(cs, threshold)
            && match CppCandidate(cs[i], threshold)
               case None => CppCandidates(cs[..i + 1], threshold) == before
               case Some(d) => |before| < |CppCandidates(cs, threshold)| && CppCandidates(cs, threshold)[|before|] == d
                               && |CppCandidates(cs[..i + 1], threshold)| == |before| + 1
  {
    hide CppCandidate;
    var n := |cs| - 1;
    assert cs[..i + 1][..i] == cs[..i];
    if i < n {
      CandidatesListed(cs[..n], threshold, i);
      assert cs[..n][..i] == cs[..i] && cs[..n][..i + 1] == cs[..i + 1];
    } else {
      assert cs[..i + 1] == cs;
    }
  }

  // ---- rows ----

  function Clamp01(v: real): real {
    if v < 0.0 then 0.0 else if 1.0 < v then 1.0 else v
  }

  function CppRow(d: Det, w: int, h: int): (r: seq<real>)
    requires w > 0 && h > 0
    ensures |r| == 6
  {
    [d.cls as real, d.score,
     Clamp01(d.y1 / h as real), Clamp01(d.x1 / w as real), Clamp01(d.y2 / h as real), Clamp01(d.x2 / w as real)]
  }

  function PyRow(d: Det, w: int, h: int): (r: seq<real>)
    requires w > 0 && h > 0
    ensures |r| == 6
  {
    [d.cls as real, d.score, d.y1 / h as real, d.x1 / w as real, d.y2 / h as real, d.x2 / w as real]
  }

  /** A native row: class, score, and the box as shares of the image, top and left before bottom and right, cut
      off at its edges. */
  lemma {:induction false} RowSays(d: Det, w: int, h: int, k: nat)
    requires w > 0 && h > 0 && 2 <= k < 6
    ensures var r := CppRow(d, w, h);
            var (edge, size) := if k == 2 then (d.y1, h) else if k == 3 then (d.x1, w) else if k == 4 then (d.y2, h)
                                else (d.x2, w);
            && r[0] == d.cls as real && r[1] == d.score && 0.0 <= r[k] <= 1.0
            && (0.0 <= edge <= size as real ==> r[k] * size as real == edge)
            && (edge < 0.0 ==> r[k] == 0.0) && (edge > size as real ==> r[k] == 1.0)
  {
    hide Clamp01;
    var (edge, size) := if k == 2 then (d.y1, h) else if k == 3 then (d.x1, w) else if k == 4 then (d.y2, h)
                        else (d.x2, w);
    assert CppRow(d, w, h)[k] == Clamp01(edge / size as real);
    ShareOf(edge, size);
  }

  lemma {:induction false} ShareOf(v: real, size: int)
    requires size > 0
    ensures var s := Clamp01(v / size as real);
            && 0.0 <= s <= 1.0 && (0.0 <= v <= size as real ==> s * size as real == v)
            && (v < 0.0 ==> s == 0.0) && (v > size as real ==> s == 1.0)
  {
    var q, s := v / size as real, size as real;
    assert q * s == v;
    assert q < 0.0 ==> q * s < 0.0;
    assert q >= 0.0 ==> q * s >= 0.0;
    assert q > 1.0 ==> q * s > 1.0 * s;
    assert q <= 1.0 ==> q * s <= 1.0 * s;
  }

  const ZERO_ROW: seq<real> := [0.0, 0.0, 0.0, 0.0, 0.0, 0.0]
}
