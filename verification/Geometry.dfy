/** Shared box geometry: the IoU score, the conversion from the model's native
    boxes, and the projection of a crop's boxes onto the slide. */
module Geometry {
  import opened Wrappers

  datatype Box = Box(x: real, y: real, w: real, h: real)

  /** What the BBox schema accepts: every field in 0..1. */
  type BBox = b: Box |
      0.0 <= b.x <= 1.0 && 0.0 <= b.y <= 1.0 && 0.0 <= b.w <= 1.0 && 0.0 <= b.h <= 1.0
    witness Box(0.0, 0.0, 0.0, 0.0)

  const BOX_2D_SCALE := 1000.0

  // ----- the three functions of the source

  /** The product, under a name the proofs can state facts about. */
  function Times(a: real, b: real): real { a * b }

  function Overlap(a0: real, alen: real, b0: real, blen: real): real {
    MaxReal(0.0, MinReal(a0 + alen, b0 + blen) - MaxReal(a0, b0))
  }

  function Iou(a: Box, b: Box): real {
    IouOf(Overlap(a.x, a.w, b.x, b.w), Overlap(a.y, a.h, b.y, b.h), Times(a.w, a.h), Times(b.w, b.h))
  }

  /** The score from the overlap's two sides and the two areas. */
  function IouOf(iw: real, ih: real, areaA: real, areaB: real): real {
    Ratio(Times(iw, ih), areaA, areaB)
  }

  function Ratio(intersection: real, areaA: real, areaB: real): real {
    if intersection <= 0.0 then 0.0
    else
      var union := areaA + areaB - intersection;
      if union > 0.0 then intersection / union else 0.0
  }

  /** Two edges of one axis meet the open range of the native scale. */
  predicate EdgesMeet(a: int, b: int) {
    a != b && MinInt(a, b) < 1000 && MaxInt(a, b) > 0
  }

  /** One axis: the two edges scaled, put in order and cut to the slide. */
  function Span(a: int, b: int): (span: (real, real))
    ensures span.0 < span.1 <==> EdgesMeet(a, b)
    ensures span.0 < span.1 ==> 0.0 <= span.0 && span.1 <= 1.0
  {
    var p, q := a as real / BOX_2D_SCALE, b as real / BOX_2D_SCALE;
    (MaxReal(MinReal(p, q), 0.0), MinReal(MaxReal(p, q), 1.0))
  }

  /** Any list of integers gives no frame or a positive-area box in the unit square; four numbers survive
      exactly when, edges put in order, they meet the open range 0..1000 on both axes. */
  function Box2dToBBox(box: Option<seq<int>>): (frame: Option<BBox>)
    ensures frame.Some? ==> PositiveArea(frame.value) && InUnit(frame.value)
    ensures frame.Some? <==>
            box.Some? && |box.value| == 4
            && EdgesMeet(box.value[0], box.value[2]) && EdgesMeet(box.value[1], box.value[3])
  {
    if box.None? || |box.value| != 4 then None
    else
      var (y0, y1) := Span(box.value[0], box.value[2]);
      var (x0, x1) := Span(box.value[1], box.value[3]);
      if x1 <= x0 || y1 <= y0 then None
      else Some(Box(x0, y0, x1 - x0, y1 - y0))
  }

  /** One axis of the projection: where the inner edge lands, cut to the slide. */
  function AxisOrigin(o: real, olen: real, i: real): real {
    MinReal(MaxReal(o + Times(i, olen), 0.0), 1.0)
  }

  function AxisLength(origin: real, olen: real, ilen: real): (len: real)
    requires 0.0 <= origin <= 1.0 && 0.0 <= olen <= 1.0 && 0.0 <= ilen <= 1.0
    ensures 0.0 <= len <= 1.0 - origin
  {
    TimesMono(0.0, ilen, 0.0, olen);
    MinReal(Times(ilen, olen), 1.0 - origin)
  }

  /** The result is again a BBox and on the slide: the clamps keep the schema from rejecting it. */
  function ProjectInto(outer: BBox, inner: BBox): (projected: BBox)
    ensures InUnit(projected)
  {
    var x := AxisOrigin(outer.x, outer.w, inner.x);
    var y := AxisOrigin(outer.y, outer.h, inner.y);
    Box(x, y, AxisLength(x, outer.w, inner.w), AxisLength(y, outer.h, inner.h))
  }

  // ----- vocabulary of the properties

  predicate PositiveArea(b: Box) { b.w > 0.0 && b.h > 0.0 }

  predicate InUnit(b: Box) {
    0.0 <= b.x && 0.0 <= b.y && 0.0 <= b.w && 0.0 <= b.h && b.x + b.w <= 1.0 && b.y + b.h <= 1.0
  }

  predicate Inside(b: Box, outer: Box) {
    outer.x <= b.x && outer.y <= b.y && b.x + b.w <= outer.x + outer.w && b.y + b.h <= outer.y + outer.h
  }

  /** Between two edges given in either order. */
  predicate Between(a: real, p: real, b: real) {
    a <= p <= b || b <= p <= a
  }

  predicate InInterior(px: real, py: real, b: Box) {
    b.x < px < b.x + b.w && b.y < py < b.y + b.h
  }

  ghost predicate InteriorsMeet(a: Box, b: Box) {
    exists px: real, py: real :: InInterior(px, py, a) && InInterior(px, py, b)
  }

  // ----- products: each fact once, on plain numbers

  lemma {:induction false} TimesMono(a: real, b: real, c: real, d: real)
    requires 0.0 <= a <= b && 0.0 <= c <= d
    ensures 0.0 <= Times(a, c) <= Times(b, d)
  {
    assert a * c <= b * c;
    assert b * c <= b * d;
  }

  lemma {:induction false} TimesPositive(a: real, b: real)
    requires 0.0 <= a && 0.0 <= b
    ensures 0.0 <= Times(a, b)
    ensures Times(a, b) > 0.0 <==> a > 0.0 && b > 0.0
  {
  }

  /** Smaller sides reach the larger product only when no side is smaller. */
  lemma {:induction false} TimesStrict(a: real, b: real, c: real, d: real)
    requires 0.0 < a <= b && 0.0 < c <= d
    ensures Times(a, c) == Times(b, d) <==> a == b && c == d
  {
    assert a < b ==> a * c < b * c;
    assert b * c <= b * d;
    assert c < d ==> b * c < b * d;
    assert a * c <= b * c;
  }

  lemma {:induction false} TimesAdds(a: real, b: real, k: real)
    ensures Times(a + b, k) == Times(a, k) + Times(b, k)
    ensures Times(a - b, k) == Times(a, k) - Times(b, k)
  {
  }

  lemma {:induction false} TimesAssociates(a: real, b: real, c: real)
    ensures Times(Times(a, b), c) == Times(a, Times(b, c))
  {
  }

  lemma {:induction false} TimesRegroups(a: real, b: real, c: real, d: real)
    ensures Times(Times(a, c), Times(b, d)) == Times(Times(a, b), Times(c, d))
  {
    assert (a * c) * (b * d) == a * (c * (b * d));
    assert c * (b * d) == b * (c * d);
    assert (a * b) * (c * d) == a * (b * (c * d));
  }

  lemma {:induction false} TimesOrder(k: real, a: real, b: real)
    requires 0.0 <= k
    ensures Times(MaxReal(a, b), k) == MaxReal(Times(a, k), Times(b, k))
    ensures Times(MinReal(a, b), k) == MinReal(Times(a, k), Times(b, k))
  {
    assert a <= b ==> a * k <= b * k;
    assert b <= a ==> b * k <= a * k;
  }

  lemma {:induction false} QuotientFacts(n: real, d: real)
    requires 0.0 < n <= d
    ensures 0.0 < n / d <= 1.0
    ensures n / d == 1.0 <==> n == d
  {
    assert (n / d) * d == n;
  }

  lemma {:induction false} QuotientScales(k: real, n: real, d: real)
    requires 0.0 < k && 0.0 < d
    ensures 0.0 < Times(d, k) && Times(n, k) / Times(d, k) == n / d
  {
    var q := n / d;
    assert q * d == n;
    assert q * (d * k) == (q * d) * k;
  }

  // ----- the score of two sides against two areas

  lemma {:induction false} RatioFacts(inter: real, areaA: real, areaB: real)
    requires 0.0 <= inter <= areaA && inter <= areaB
    ensures 0.0 <= Ratio(inter, areaA, areaB) <= 1.0
    ensures Ratio(inter, areaA, areaB) == 0.0 <==> inter == 0.0
    ensures Ratio(inter, areaA, areaB) == 1.0 <==> inter > 0.0 && inter == areaA == areaB
  {
    if inter > 0.0 {
      QuotientFacts(inter, areaA + areaB - inter);
    }
  }

  lemma {:induction false} RatioScales(inter: real, areaA: real, areaB: real, k: real)
    requires 0.0 <= inter <= areaA && inter <= areaB && 0.0 < k
    ensures Ratio(Times(inter, k), Times(areaA, k), Times(areaB, k)) == Ratio(inter, areaA, areaB)
  {
    TimesPositive(inter, k);
    TimesAdds(areaA, areaB, k);
    TimesAdds(areaA + areaB, inter, k);
    if inter > 0.0 {
      QuotientScales(k, inter, areaA + areaB - inter);
    }
  }

  /** Everything the score of two boxes with sides aw x ah and bw x bh can be. */
  lemma {:induction false} IouOfFacts(iw: real, ih: real, aw: real, ah: real, bw: real, bh: real)
    requires 0.0 <= iw <= aw && iw <= bw && 0.0 <= ih <= ah && ih <= bh
    ensures 0.0 <= IouOf(iw, ih, Times(aw, ah), Times(bw, bh)) <= 1.0
    ensures IouOf(iw, ih, Times(aw, ah), Times(bw, bh)) == 0.0 <==> iw == 0.0 || ih == 0.0
    ensures IouOf(iw, ih, Times(aw, ah), Times(bw, bh)) == 1.0
       <==> iw > 0.0 && ih > 0.0 && iw == aw == bw && ih == ah == bh
  {
    TimesMono(iw, aw, ih, ah);
    TimesMono(iw, bw, ih, bh);
    TimesPositive(iw, ih);
    RatioFacts(Times(iw, ih), Times(aw, ah), Times(bw, bh));
    if iw > 0.0 && ih > 0.0 {
      TimesStrict(iw, aw, ih, ah);
      TimesStrict(iw, bw, ih, bh);
    }
  }

  /** Scaling both axes scales every area alike, which the score does not see. */
  lemma {:induction false} IouOfScales(iw: real, ih: real, aw: real, ah: real, bw: real, bh: real, kw: real, kh: real)
    requires 0.0 <= iw <= aw && iw <= bw && 0.0 <= ih <= ah && ih <= bh && 0.0 < kw && 0.0 < kh
    ensures IouOf(Times(iw, kw), Times(ih, kh),
                  Times(Times(aw, kw), Times(ah, kh)), Times(Times(bw, kw), Times(bh, kh)))
         == IouOf(iw, ih, Times(aw, ah), Times(bw, bh))
  {
    TimesRegroups(iw, ih, kw, kh);
    TimesRegroups(aw, ah, kw, kh);
    TimesRegroups(bw, bh, kw, kh);
    TimesPositive(kw, kh);
    TimesMono(iw, aw, ih, ah);
    TimesMono(iw, bw, ih, bh);
    RatioScales(Times(iw, ih), Times(aw, ah), Times(bw, bh), Times(kw, kh));
  }

  // ----- the overlap along one axis

  lemma {:induction false} OverlapFacts(a0: real, alen: real, b0: real, blen: real)
    requires 0.0 <= alen && 0.0 <= blen
    ensures 0.0 <= Overlap(a0, alen, b0, blen) <= alen
    ensures Overlap(a0, alen, b0, blen) <= blen
    ensures Overlap(a0, alen, b0, blen) == Overlap(b0, blen, a0, alen)
    ensures Overlap(a0, alen, b0, blen) == alen == blen && alen > 0.0 ==> a0 == b0
    ensures a0 == b0 && alen == blen ==> Overlap(a0, alen, b0, blen) == alen
  {
  }

  lemma {:induction false} OverlapMidpoint(a0: real, alen: real, b0: real, blen: real) returns (p: real)
    ensures Overlap(a0, alen, b0, blen) > 0.0 ==> a0 < p < a0 + alen && b0 < p < b0 + blen
  {
    p := (MaxReal(a0, b0) + MinReal(a0 + alen, b0 + blen)) / 2.0;
  }

  /** An affine map scales the overlap of two intervals by its factor. */
  lemma {:induction false} OverlapScales(o: real, k: real, a0: real, alen: real, b0: real, blen: real)
    requires 0.0 <= k
    ensures Overlap(o + Times(a0, k), Times(alen, k), o + Times(b0, k), Times(blen, k))
         == Times(Overlap(a0, alen, b0, blen), k)
  {
    var lo, hi := MaxReal(a0, b0), MinReal(a0 + alen, b0 + blen);
    TimesAdds(a0, alen, k);
    TimesAdds(b0, blen, k);
    TimesOrder(k, a0, b0);
    TimesOrder(k, a0 + alen, b0 + blen);
    TimesOrder(k, 0.0, hi - lo);
    TimesAdds(hi, lo, k);
    TimesAdds(0.0, 0.0, k);
  }

  /** Inside the crop's frame no clamp acts along the axis, and the result stays inside the crop. */
  lemma {:induction false} AxisUnclamped(o: real, olen: real, i: real, ilen: real)
    requires 0.0 <= o && 0.0 <= olen && o + olen <= 1.0 && 0.0 <= i && 0.0 <= ilen && i + ilen <= 1.0
    ensures AxisOrigin(o, olen, i) == o + Times(i, olen) && o <= AxisOrigin(o, olen, i)
    ensures AxisLength(AxisOrigin(o, olen, i), olen, ilen) == Times(ilen, olen)
    ensures AxisOrigin(o, olen, i) + AxisLength(AxisOrigin(o, olen, i), olen, ilen) <= o + olen
  {
    TimesMono(i + ilen, 1.0, olen, olen);
    TimesMono(0.0, i, 0.0, olen);
    TimesMono(0.0, ilen, 0.0, olen);
    TimesAdds(i, ilen, olen);
  }

  // ----- properties

  lemma {:induction false} BoxIouFacts(a: BBox, b: BBox)
    ensures 0.0 <= Iou(a, b) <= 1.0
    ensures var iw, ih := Overlap(a.x, a.w, b.x, b.w), Overlap(a.y, a.h, b.y, b.h);
      && (Iou(a, b) == 0.0 <==> iw == 0.0 || ih == 0.0)
      && (Iou(a, b) == 1.0 <==> iw > 0.0 && ih > 0.0 && iw == a.w == b.w && ih == a.h == b.h)
  {
    OverlapFacts(a.x, a.w, b.x, b.w);
    OverlapFacts(a.y, a.h, b.y, b.h);
    IouOfFacts(Overlap(a.x, a.w, b.x, b.w), Overlap(a.y, a.h, b.y, b.h), a.w, a.h, b.w, b.h);
  }

  lemma {:induction false} IouSymmetric(a: BBox, b: BBox)
    ensures Iou(a, b) == Iou(b, a)
  {
    OverlapFacts(a.x, a.w, b.x, b.w);
    OverlapFacts(a.y, a.h, b.y, b.h);
  }

  /** A point of an interval. */
  predicate Within(t: real, origin: real, len: real) { origin <= t <= origin + len }

  /** The overlap of two intervals is the length of what they have in common. */
  lemma {:induction false} OverlapIsCommonLength(a0: real, alen: real, b0: real, blen: real) returns (lo: real, hi: real)
    requires 0.0 <= alen && 0.0 <= blen
    ensures forall t :: Within(t, a0, alen) && Within(t, b0, blen) <==> lo <= t <= hi
    ensures Overlap(a0, alen, b0, blen) == if lo <= hi then hi - lo else 0.0
  {
    lo, hi := MaxReal(a0, b0), MinReal(a0 + alen, b0 + blen);
  }

  /** IoU is intersection over union: times the area of the union it gives the area of the intersection. */
  lemma {:induction false} IouIsQuotient(a: BBox, b: BBox)
    ensures var inter := Times(Overlap(a.x, a.w, b.x, b.w), Overlap(a.y, a.h, b.y, b.h));
      Times(Iou(a, b), Times(a.w, a.h) + Times(b.w, b.h) - inter) == inter
  {
    OverlapFacts(a.x, a.w, b.x, b.w);
    OverlapFacts(a.y, a.h, b.y, b.h);
    var iw, ih := Overlap(a.x, a.w, b.x, b.w), Overlap(a.y, a.h, b.y, b.h);
    TimesMono(iw, a.w, ih, a.h);
    TimesMono(iw, b.w, ih, b.h);
    RatioIsQuotient(Times(iw, ih), Times(a.w, a.h), Times(b.w, b.h));
  }

  lemma {:induction false} RatioIsQuotient(inter: real, areaA: real, areaB: real)
    requires 0.0 <= inter <= areaA && inter <= areaB
    ensures Times(Ratio(inter, areaA, areaB), areaA + areaB - inter) == inter
  {
    var union := areaA + areaB - inter;
    if inter > 0.0 {
      assert (inter / union) * union == inter;
    }
  }

  /** The score is zero exactly when no point lies strictly inside both boxes. */
  lemma {:induction false} IouZeroIffDisjoint(a: BBox, b: BBox)
    ensures Iou(a, b) == 0.0 <==> !InteriorsMeet(a, b)
  {
    BoxIouFacts(a, b);
    OverlapFacts(a.x, a.w, b.x, b.w);
    OverlapFacts(a.y, a.h, b.y, b.h);
    var px := OverlapMidpoint(a.x, a.w, b.x, b.w);
    var py := OverlapMidpoint(a.y, a.h, b.y, b.h);
    assert Iou(a, b) != 0.0 ==> InInterior(px, py, a) && InInterior(px, py, b);
  }

  lemma {:induction false} IouOneIffEqual(a: BBox, b: BBox)
    requires PositiveArea(a) && PositiveArea(b)
    ensures Iou(a, b) == 1.0 <==> a == b
  {
    BoxIouFacts(a, b);
    OverlapFacts(a.x, a.w, b.x, b.w);
    OverlapFacts(a.y, a.h, b.y, b.h);
  }

  lemma {:induction false} Box2dEdgeOrderIrrelevant(y0: int, x0: int, y1: int, x1: int)
    ensures Box2dToBBox(Some([y0, x0, y1, x1])) == Box2dToBBox(Some([y1, x0, y0, x1]))
    ensures Box2dToBBox(Some([y0, x0, y1, x1])) == Box2dToBBox(Some([y0, x1, y1, x0]))
  {
  }

  /** Coordinates already in order and in range are only rescaled. */
  lemma {:induction false} Box2dExact(y0: int, x0: int, y1: int, x1: int)
    requires 0 <= x0 < x1 <= 1000 && 0 <= y0 < y1 <= 1000
    ensures Box2dToBBox(Some([y0, x0, y1, x1])).Some?
    ensures var b := Box2dToBBox(Some([y0, x0, y1, x1])).value;
      b.x * 1000.0 == x0 as real && b.y * 1000.0 == y0 as real &&
      b.w * 1000.0 == (x1 - x0) as real && b.h * 1000.0 == (y1 - y0) as real
  {
  }

  /** Whatever the coordinates, the frame is the part of the slide between the named edges: a point of the slide, in
      thousandths of its sides, lies in the frame exactly when it lies between them. */
  lemma {:induction false} Box2dCovers(y0: int, x0: int, y1: int, x1: int, px: real, py: real)
    requires 0.0 <= px <= 1.0 && 0.0 <= py <= 1.0
    ensures var frame := Box2dToBBox(Some([y0, x0, y1, x1]));
      frame.Some? ==>
        (Between(frame.value.x, px, frame.value.x + frame.value.w) && Between(frame.value.y, py, frame.value.y + frame.value.h)
         <==> Between(x0 as real, px * 1000.0, x1 as real) && Between(y0 as real, py * 1000.0, y1 as real))
  {
  }

  /** For a crop inside the slide and a box inside the crop's frame no clamp acts. */
  lemma {:induction false} ProjectionUnclamped(outer: BBox, inner: BBox)
    requires InUnit(outer) && InUnit(inner)
    ensures ProjectInto(outer, inner) ==
            Box(outer.x + Times(inner.x, outer.w), outer.y + Times(inner.y, outer.h),
                Times(inner.w, outer.w), Times(inner.h, outer.h))
    ensures Inside(ProjectInto(outer, inner), outer) && InUnit(ProjectInto(outer, inner))
  {
    AxisUnclamped(outer.x, outer.w, inner.x, inner.w);
    AxisUnclamped(outer.y, outer.h, inner.y, inner.h);
  }

  lemma {:induction false} ScaledBoxesIou(a: BBox, b: BBox, pa: BBox, pb: BBox, kw: real, kh: real)
    requires 0.0 < kw && 0.0 < kh
    requires Overlap(pa.x, pa.w, pb.x, pb.w) == Times(Overlap(a.x, a.w, b.x, b.w), kw)
    requires Overlap(pa.y, pa.h, pb.y, pb.h) == Times(Overlap(a.y, a.h, b.y, b.h), kh)
    requires pa.w == Times(a.w, kw) && pb.w == Times(b.w, kw) && pa.h == Times(a.h, kh) && pb.h == Times(b.h, kh)
    ensures Iou(pa, pb) == Iou(a, b)
  {
    OverlapFacts(a.x, a.w, b.x, b.w);
    OverlapFacts(a.y, a.h, b.y, b.h);
    IouOfScales(Overlap(a.x, a.w, b.x, b.w), Overlap(a.y, a.h, b.y, b.h), a.w, a.h, b.w, b.h, kw, kh);
  }

  /** Moving two boxes from a crop's frame onto the slide keeps their IoU. */
  lemma {:induction false} ProjectionPreservesIou(outer: BBox, a: BBox, b: BBox)
    requires PositiveArea(outer) && InUnit(outer) && InUnit(a) && InUnit(b)
    ensures Iou(ProjectInto(outer, a), ProjectInto(outer, b)) == Iou(a, b)
  {
    ProjectionUnclamped(outer, a);
    ProjectionUnclamped(outer, b);
    OverlapScales(outer.x, outer.w, a.x, a.w, b.x, b.w);
    OverlapScales(outer.y, outer.h, a.y, a.h, b.y, b.h);
    ScaledBoxesIou(a, b, ProjectInto(outer, a), ProjectInto(outer, b), outer.w, outer.h);
  }

  /** Projecting through two nested crops is projecting through their projection. */
  lemma {:induction false} ProjectionComposes(outer: BBox, middle: BBox, inner: BBox)
    requires InUnit(outer) && InUnit(middle) && InUnit(inner)
    ensures ProjectInto(outer, ProjectInto(middle, inner)) == ProjectInto(ProjectInto(outer, middle), inner)
  {
    ProjectionUnclamped(middle, inner);
    ProjectionUnclamped(outer, middle);
    ProjectionUnclamped(outer, ProjectInto(middle, inner));
    ProjectionUnclamped(ProjectInto(outer, middle), inner);
    TimesAdds(middle.x, Times(inner.x, middle.w), outer.w);
    TimesAdds(middle.y, Times(inner.y, middle.h), outer.h);
    TimesAssociates(inner.x, middle.w, outer.w);
    TimesAssociates(inner.y, middle.h, outer.h);
    TimesAssociates(inner.w, middle.w, outer.w);
    TimesAssociates(inner.h, middle.h, outer.h);
  }
}
