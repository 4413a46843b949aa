/** The zoom pass over one slide: crop the suspicious regions, move what was found in a crop onto the slide, and
    accept what does not repeat a known finding. */
module Zoom {
  import opened Wrappers
  import opened Geometry
  import opened GreedyScan
  import opened Rounding

  /** A finding as far as this pass looks at it: its box, and its text standing for the rest. */
  datatype Finding = Finding(bbox: Option<BBox>, text: string)

  type Pixels = n: int | n > 0 witness 1

  // ----- cropping

  datatype Crop = Crop(left: int, top: int, right: int, bottom: int)

  function ClampEdge(size: Pixels, v: int): (edge: int)
    ensures 0 <= edge <= size
  {
    MaxInt(0, MinInt(size, v))
  }

  function Edge(at: real, size: Pixels): int {
    ClampEdge(size, RoundHalfEven(Times(at, size as real)))
  }

  /** The pixels a region asks for; a region that rounds to nothing gives the whole image. */
  function CropOf(bbox: BBox, width: Pixels, height: Pixels): (crop: Crop)
    ensures 0 <= crop.left < crop.right <= width && 0 <= crop.top < crop.bottom <= height
  {
    var left, top := Edge(bbox.x, width), Edge(bbox.y, height);
    var right, bottom := Edge(bbox.x + bbox.w, width), Edge(bbox.y + bbox.h, height);
    if right <= left || bottom <= top then Crop(0, 0, width, height) else Crop(left, top, right, bottom)
  }

  /** A fraction of the image's size that is exactly this pixel. */
  predicate AtPixel(fraction: real, size: Pixels, pixel: int) {
    Times(fraction, size as real) == pixel as real
  }

  /** The region the crop actually covers. */
  function ActualRegion(crop: Crop, width: Pixels, height: Pixels): (actual: BBox)
    requires 0 <= crop.left < crop.right <= width && 0 <= crop.top < crop.bottom <= height
    ensures InUnit(actual) && PositiveArea(actual)
  {
    FractionInUnit(crop.left, crop.right, width);
    FractionInUnit(crop.top, crop.bottom, height);
    Box(crop.left as real / width as real, crop.top as real / height as real,
        (crop.right - crop.left) as real / width as real, (crop.bottom - crop.top) as real / height as real)
  }

  /** In pixels its four edges are exactly the crop's. */
  lemma {:induction false} ActualRegionEdges(crop: Crop, width: Pixels, height: Pixels)
    requires 0 <= crop.left < crop.right <= width && 0 <= crop.top < crop.bottom <= height
    ensures var actual := ActualRegion(crop, width, height);
      && AtPixel(actual.x, width, crop.left) && AtPixel(actual.x + actual.w, width, crop.right)
      && AtPixel(actual.y, height, crop.top) && AtPixel(actual.y + actual.h, height, crop.bottom)
  {
    FractionAtPixel(crop.left, crop.right, width);
    FractionAtPixel(crop.top, crop.bottom, height);
  }

  lemma {:induction false} FractionAtPixel(lo: int, hi: int, size: Pixels)
    ensures AtPixel(lo as real / size as real, size, lo)
    ensures AtPixel(lo as real / size as real + (hi - lo) as real / size as real, size, hi)
  {
    var s := size as real;
    var a, b := lo as real / s, (hi - lo) as real / s;
    assert a * s == lo as real && b * s == (hi - lo) as real;
    assert (a + b) * s == a * s + b * s;
  }

  lemma {:induction false} FractionInUnit(lo: int, hi: int, size: Pixels)
    requires 0 <= lo < hi <= size
    ensures 0.0 <= lo as real / size as real <= 1.0
    ensures 0.0 < (hi - lo) as real / size as real <= 1.0
    ensures lo as real / size as real + (hi - lo) as real / size as real <= 1.0
  {
    var s := size as real;
    var a, b := lo as real / s, (hi - lo) as real / s;
    assert a * s == lo as real && b * s == (hi - lo) as real;
    assert (a + b) * s == hi as real;
    QuotientBounds(lo, size);
    QuotientBounds(hi - lo, size);
    QuotientBounds(hi, size);
    assert hi as real / s == a + b;
  }

  lemma {:induction false} QuotientBounds(n: int, size: Pixels)
    requires 0 <= n <= size
    ensures 0.0 <= n as real / size as real <= 1.0
    ensures n > 0 ==> 0.0 < n as real / size as real
  {
    var q := n as real / size as real;
    assert q * size as real == n as real;
  }

  predicate HalfPixel(at: real, size: Pixels, edge: int) {
    Times(at, size as real) - 0.5 <= edge as real <= Times(at, size as real) + 0.5
  }

  /** An edge inside the slide is only rounded: the clamp never acts on it. */
  lemma {:induction false} EdgeWithinHalfPixel(at: real, size: Pixels)
    requires 0.0 <= at <= 1.0
    ensures HalfPixel(at, size, Edge(at, size))
  {
    TimesMono(at, 1.0, size as real, size as real);
    RoundInRange(Times(at, size as real), size);
  }

  lemma {:induction false} RoundInRange(v: real, size: Pixels)
    requires 0.0 <= v <= Times(1.0, size as real)
    ensures 0 <= RoundHalfEven(v) <= size
  {
    RoundMonotone(0.0, v);
    RoundMonotone(v, size as real);
    RoundInteger(0);
    RoundInteger(size);
  }

  predicate RoundsToNothing(bbox: BBox, width: Pixels, height: Pixels) {
    Edge(bbox.x + bbox.w, width) <= Edge(bbox.x, width) || Edge(bbox.y + bbox.h, height) <= Edge(bbox.y, height)
  }

  /** For a region inside the slide each edge of the crop is within half a pixel of the requested one, unless the
      region rounds to zero pixels, in which case the crop is the whole image. */
  lemma {:induction false} CropIsFaithful(bbox: BBox, width: Pixels, height: Pixels)
    requires InUnit(bbox)
    ensures var crop := CropOf(bbox, width, height);
      if RoundsToNothing(bbox, width, height) then crop == Crop(0, 0, width, height)
      else
        && HalfPixel(bbox.x, width, crop.left) && HalfPixel(bbox.x + bbox.w, width, crop.right)
        && HalfPixel(bbox.y, height, crop.top) && HalfPixel(bbox.y + bbox.h, height, crop.bottom)
  {
    EdgeWithinHalfPixel(bbox.x, width);
    EdgeWithinHalfPixel(bbox.x + bbox.w, width);
    EdgeWithinHalfPixel(bbox.y, height);
    EdgeWithinHalfPixel(bbox.y + bbox.h, height);
  }

  // ----- accepting

  predicate Overlaps(threshold: real, a: Finding, b: Finding) {
    a.bbox.Some? && b.bbox.Some? && Iou(a.bbox.value, b.bbox.value) > threshold
  }

  function OverlapTest(threshold: real): (Finding, Finding) -> bool {
    (a: Finding, b: Finding) => Overlaps(threshold, a, b)
  }

  method IsDuplicate(finding: Finding, existing: seq<Finding>, threshold: real) returns (duplicate: bool)
    ensures duplicate <==> ClashesWith(finding, existing, OverlapTest(threshold))
  {
    if finding.bbox.None? {
      return false;
    }
    for i := 0 to |existing|
      invariant forall k :: 0 <= k < i ==> !Overlaps(threshold, finding, existing[k])
    {
      var other := existing[i];
      if other.bbox.None? {
        continue;
      }
      if Iou(finding.bbox.value, other.bbox.value) > threshold {
        assert OverlapTest(threshold)(finding, existing[i]);
        return true;
      }
    }
    return false;
  }

  // ----- one slide

  /** The frame of a screened region or of a found item, in the model's native coordinates. */
  type NativeBox = Option<seq<int>>

  datatype ZoomItem = ZoomItem(box2d: NativeBox, text: string)

  function OnSlide(crop: BBox, item: ZoomItem): Finding {
    var bbox := Box2dToBBox(item.box2d);
    Finding(if bbox.Some? then Some(ProjectInto(crop, bbox.value)) else None, item.text)
  }

  function Projected(crop: BBox, items: seq<ZoomItem>): (findings: seq<Finding>)
    ensures |findings| == |items| && forall i :: 0 <= i < |items| ==> findings[i] == OnSlide(crop, items[i])
  {
    seq(|items|, i requires 0 <= i < |items| => OnSlide(crop, items[i]))
  }

  /** What the full-tier model returns for the zoom into each region, by the region's place. */
  type Model = nat -> seq<ZoomItem>

  function RegionCandidates(region: NativeBox, r: nat, width: Pixels, height: Pixels, model: Model): seq<Finding> {
    var bbox := Box2dToBBox(region);
    if bbox.None? then []
    else
      var crop := ActualRegion(CropOf(bbox.value, width, height), width, height);
      Projected(crop, model(r))
  }

  /** Everything the zooms propose, in order. */
  function Candidates(regions: seq<NativeBox>, width: Pixels, height: Pixels, model: Model): seq<Finding> {
    if regions == [] then []
    else
      Candidates(regions[..|regions| - 1], width, height, model)
        + RegionCandidates(regions[|regions| - 1], |regions| - 1, width, height, model)
  }

  /** How many regions can be zoomed into. */
  function Usable(regions: seq<NativeBox>): (count: nat)
    ensures count <= |regions|
  {
    if regions == [] then 0
    else Usable(regions[..|regions| - 1]) + (if Box2dToBBox(regions[|regions| - 1]).Some? then 1 else 0)
  }

  /** The places of the regions that can be zoomed into. */
  function UsablePlaces(regions: seq<NativeBox>): set<nat> {
    set r: nat | r < |regions| && Box2dToBBox(regions[r]).Some?
  }

  lemma {:induction false} UsableIsCount(regions: seq<NativeBox>)
    ensures Usable(regions) == |UsablePlaces(regions)|
  {
    if regions == [] {
      assert UsablePlaces(regions) == {};
    } else {
      var n := |regions| - 1;
      var front := regions[..n];
      UsableIsCount(front);
      forall r: nat
        ensures r in UsablePlaces(front) <==> r in UsablePlaces(regions) && r != n
      {
        assert r < n ==> front[r] == regions[r];
      }
      assert UsablePlaces(regions) == UsablePlaces(front) + (if Box2dToBBox(regions[n]).Some? then {n} else {});
    }
  }

  function FirstRegions(regions: seq<NativeBox>, maxZooms: nat): seq<NativeBox> {
    regions[..MinInt(maxZooms, |regions|)]
  }

  /** One more region adds, at the end, every item the model returned for the zoom into it, in the model's order, moved
      onto the slide; a region without a frame adds nothing and costs no call. */
  lemma {:induction false} RegionStep(regions: seq<NativeBox>, r: nat, width: Pixels, height: Pixels, model: Model)
    requires r < |regions|
    ensures var before := Candidates(regions[..r], width, height, model);
      && Usable(regions[..r + 1]) == Usable(regions[..r]) + (if Box2dToBBox(regions[r]).Some? then 1 else 0)
      && Candidates(regions[..r + 1], width, height, model) ==
           if Box2dToBBox(regions[r]).None? then before
           else
             var crop := ActualRegion(CropOf(Box2dToBBox(regions[r]).value, width, height), width, height);
             before + Projected(crop, model(r))
  {
    assert regions[..r + 1][..r] == regions[..r];
    assert Candidates(regions[..r], width, height, model) + [] == Candidates(regions[..r], width, height, model);
  }

  /** The pass over one slide: accept greedily over all zooms, and call the model once per usable region. */
  method ProcessSlide(regions: seq<NativeBox>, existing: seq<Finding>, width: Pixels, height: Pixels,
                      model: Model, maxZooms: nat, threshold: real)
    returns (accepted: seq<Finding>, fullCalls: nat)
    ensures accepted == Accepted(existing, Candidates(FirstRegions(regions, maxZooms), width, height, model), threshold)
    ensures fullCalls == Usable(FirstRegions(regions, maxZooms)) <= maxZooms
  {
    var chosen := FirstRegions(regions, maxZooms);
    ghost var test := OverlapTest(threshold);
    accepted, fullCalls := [], 0;
    for r := 0 to |chosen|
      invariant accepted == Scan(existing, Candidates(chosen[..r], width, height, model), test)
      invariant fullCalls == Usable(chosen[..r])
    {
      ghost var before := Candidates(chosen[..r], width, height, model);
      RegionStep(chosen, r, width, height, model);
      var region := Box2dToBBox(chosen[r]);
      if region.None? {
        continue;
      }
      var crop := ActualRegion(CropOf(region.value, width, height), width, height);
      var items := model(r);
      fullCalls := fullCalls + 1;
      accepted := AcceptZoom(items, crop, existing, accepted, before, threshold);
    }
    assert chosen[..|chosen|] == chosen;
  }

  /** The inner loop: the findings of one zoom against the slide's own and those accepted so far. */
  method AcceptZoom(items: seq<ZoomItem>, crop: BBox, existing: seq<Finding>, sofar: seq<Finding>,
                    ghost before: seq<Finding>, threshold: real)
    returns (accepted: seq<Finding>)
    requires sofar == Scan(existing, before, OverlapTest(threshold))
    ensures accepted == Scan(existing, before + Projected(crop, items), OverlapTest(threshold))
  {
    ghost var test := OverlapTest(threshold);
    ghost var moved := Projected(crop, items);
    accepted := sofar;
    assert before + moved[..0] == before;
    for i := 0 to |items|
      invariant accepted == Scan(existing, before + moved[..i], test)
    {
      var finding := OnSlide(crop, items[i]);
      assert before + moved[..i + 1] == (before + moved[..i]) + [finding];
      ScanStep(existing, before + moved[..i], finding, test);
      ClashesConcat(finding, existing, accepted, test);
      var duplicate := IsDuplicate(finding, existing + accepted, threshold);
      if duplicate {
        continue;
      }
      accepted := accepted + [finding];
    }
    assert moved[..|items|] == moved;
  }

  // ----- what an accepted list satisfies

  /** A place on the slide that is, in pixels of the image, the given fraction of the way from one edge of the crop to
      the other. */
  predicate Lands(at: real, size: Pixels, lo: int, hi: int, fraction: real) {
    Times(at, size as real) == lo as real + Times(fraction, (hi - lo) as real)
  }

  /** The box, in pixels of the image, is the inner one measured from the crop's edges. */
  ghost predicate InCrop(box: BBox, inner: BBox, crop: Crop, width: Pixels, height: Pixels) {
    && Lands(box.x, width, crop.left, crop.right, inner.x) && Lands(box.x + box.w, width, crop.left, crop.right, inner.x + inner.w)
    && Lands(box.y, height, crop.top, crop.bottom, inner.y) && Lands(box.y + box.h, height, crop.top, crop.bottom, inner.y + inner.h)
  }

  /** `f` is item `i` of the model's answer to the zoom into this region, the `r`th. If the item has a box, so has `f`: of
      positive area, on the slide, and lying in the crop of that region where the item's box lies in the zoom. */
  ghost predicate FoundIn(f: Finding, region: NativeBox, r: nat, i: nat, width: Pixels, height: Pixels, model: Model) {
    && Box2dToBBox(region).Some? && i < |model(r)| && f.text == model(r)[i].text
    && var inner := Box2dToBBox(model(r)[i].box2d);
       && (f.bbox.Some? <==> inner.Some?)
       && (f.bbox.Some? ==>
             && InCrop(f.bbox.value, inner.value, CropOf(Box2dToBBox(region).value, width, height), width, height)
             && InUnit(f.bbox.value) && PositiveArea(f.bbox.value))
  }

  /** One axis: the projected edge, measured in pixels. */
  lemma {:induction false} EdgeLands(origin: real, len: real, size: Pixels, lo: int, hi: int, fraction: real)
    requires AtPixel(origin, size, lo) && AtPixel(origin + len, size, hi)
    ensures Lands(origin + Times(fraction, len), size, lo, hi, fraction)
  {
    TimesAdds(origin, len, size as real);
    TimesAdds(origin, Times(fraction, len), size as real);
    TimesAssociates(fraction, len, size as real);
  }

  lemma {:induction false} AxisLands(origin: real, len: real, size: Pixels, lo: int, hi: int, at: real, extent: real)
    requires AtPixel(origin, size, lo) && AtPixel(origin + len, size, hi)
    ensures Lands(origin + Times(at, len), size, lo, hi, at)
    ensures Lands(origin + Times(at, len) + Times(extent, len), size, lo, hi, at + extent)
  {
    EdgeLands(origin, len, size, lo, hi, at);
    EdgeLands(origin, len, size, lo, hi, at + extent);
    TimesAdds(at, extent, len);
  }

  lemma {:induction false} ProjectedInCrop(inner: BBox, crop: Crop, width: Pixels, height: Pixels)
    requires 0 <= crop.left < crop.right <= width && 0 <= crop.top < crop.bottom <= height
    requires InUnit(inner) && PositiveArea(inner)
    ensures var box := ProjectInto(ActualRegion(crop, width, height), inner);
      InCrop(box, inner, crop, width, height) && InUnit(box) && PositiveArea(box)
  {
    var actual := ActualRegion(crop, width, height);
    ActualRegionEdges(crop, width, height);
    ProjectionUnclamped(actual, inner);
    TimesPositive(inner.w, actual.w);
    TimesPositive(inner.h, actual.h);
    AxisLands(actual.x, actual.w, width, crop.left, crop.right, inner.x, inner.w);
    AxisLands(actual.y, actual.h, height, crop.top, crop.bottom, inner.y, inner.h);
  }

  lemma {:induction false} CandidateFound(region: NativeBox, r: nat, width: Pixels, height: Pixels, model: Model, i: nat)
    requires i < |RegionCandidates(region, r, width, height, model)|
    ensures FoundIn(RegionCandidates(region, r, width, height, model)[i], region, r, i, width, height, model)
  {
    var inner := Box2dToBBox(model(r)[i].box2d);
    if inner.Some? {
      ProjectedInCrop(inner.value, CropOf(Box2dToBBox(region).value, width, height), width, height);
    }
  }

  /** What each region proposes, as a function of its place. */
  function Proposals(regions: seq<NativeBox>, width: Pixels, height: Pixels, model: Model): nat -> seq<Finding> {
    (r: nat) => if r < |regions| then RegionCandidates(regions[r], r, width, height, model) else []
  }

  lemma {:induction false} CandidatesSnoc(regions: seq<NativeBox>, m: nat, width: Pixels, height: Pixels, model: Model, proposed: seq<Finding>)
    requires m < |regions| && proposed == RegionCandidates(regions[m], m, width, height, model)
    ensures Candidates(regions[..m + 1], width, height, model) == Candidates(regions[..m], width, height, model) + proposed
  {
    assert regions[..m + 1][..m] == regions[..m];
  }

  lemma {:induction false} CandidatesJoin(regions: seq<NativeBox>, m: nat, width: Pixels, height: Pixels, model: Model)
    requires m <= |regions|
    ensures Candidates(regions[..m], width, height, model) == Concat(Proposals(regions, width, height, model), m)
  {
    if m > 0 {
      CandidatesJoin(regions, m - 1, width, height, model);
      CandidatesSnoc(regions, m - 1, width, height, model, Proposals(regions, width, height, model)(m - 1));
    }
  }

  lemma {:induction false} JoinAll(regions: seq<NativeBox>, width: Pixels, height: Pixels, model: Model)
    ensures Candidates(regions, width, height, model) == Concat(Proposals(regions, width, height, model), |regions|)
  {
    assert regions[..|regions|] == regions;
    CandidatesJoin(regions, |regions|, width, height, model);
  }

  /** Found in one of the first `limit` regions. */
  ghost predicate FoundInSome(f: Finding, regions: seq<NativeBox>, limit: nat, width: Pixels, height: Pixels, model: Model) {
    exists r: nat, i: nat :: r < |regions| && r < limit && FoundIn(f, regions[r], r, i, width, height, model)
  }

  lemma {:induction false} FoundInMore(f: Finding, regions: seq<NativeBox>, n: nat, width: Pixels, height: Pixels, model: Model)
    requires n <= |regions| && FoundInSome(f, regions[..n], n, width, height, model)
    ensures FoundInSome(f, regions, n, width, height, model)
  {
    var r: nat, i: nat :| r < n && FoundIn(f, regions[..n][r], r, i, width, height, model);
    assert FoundIn(f, regions[r], r, i, width, height, model);
  }

  lemma {:induction false} CandidatesFound(regions: seq<NativeBox>, width: Pixels, height: Pixels, model: Model, c: nat)
    requires c < |Candidates(regions, width, height, model)|
    ensures FoundInSome(Candidates(regions, width, height, model)[c], regions, |regions|, width, height, model)
  {
    JoinAll(regions, width, height, model);
    var r, i := ConcatSource(Proposals(regions, width, height, model), |regions|, c);
    CandidateFound(regions[r], r, width, height, model, i);
  }

  ghost predicate IsProposed(candidates: seq<Finding>, region: NativeBox, r: nat, i: nat, width: Pixels, height: Pixels, model: Model) {
    exists c :: 0 <= c < |candidates| && FoundIn(candidates[c], region, r, i, width, height, model)
  }

  /** Nothing the model finds is lost on the way: every item of the zoom into each of the first `maxZooms` regions with
      a frame is a candidate. */
  lemma {:induction false} EveryItemIsProposed(regions: seq<NativeBox>, width: Pixels, height: Pixels, model: Model, maxZooms: nat,
                                               r: nat, i: nat)
    requires r < |regions| && r < maxZooms && Box2dToBBox(regions[r]).Some? && i < |model(r)|
    ensures IsProposed(Candidates(FirstRegions(regions, maxZooms), width, height, model), regions[r], r, i, width, height, model)
  {
    var chosen := FirstRegions(regions, maxZooms);
    assert chosen[r] == regions[r];
    JoinAll(chosen, width, height, model);
    var c := ConcatPlace(Proposals(chosen, width, height, model), |chosen|, r, i);
    CandidateFound(regions[r], r, width, height, model, i);
    assert FoundIn(Candidates(chosen, width, height, model)[c], regions[r], r, i, width, height, model);
  }

  function Accepted(existing: seq<Finding>, candidates: seq<Finding>, threshold: real): seq<Finding> {
    Scan(existing, candidates, OverlapTest(threshold))
  }

  /** No accepted box overlaps a known one, or another accepted one, beyond the threshold. */
  lemma {:induction false} AcceptedApart(existing: seq<Finding>, candidates: seq<Finding>, threshold: real)
    ensures var accepted := Accepted(existing, candidates, threshold);
      && (forall a, b :: 0 <= a < b < |accepted| ==> !Overlaps(threshold, accepted[b], accepted[a]))
      && (forall a, b :: 0 <= a < b < |accepted| ==> !Overlaps(threshold, accepted[a], accepted[b]))
      && (forall a, e :: 0 <= a < |accepted| && 0 <= e < |existing| ==> !Overlaps(threshold, accepted[a], existing[e]))
  {
    var test, accepted := OverlapTest(threshold), Accepted(existing, candidates, threshold);
    ScanIsIndependent(existing, candidates, test);
    forall a, b | 0 <= a < b < |accepted|
      ensures !Overlaps(threshold, accepted[b], accepted[a]) && !Overlaps(threshold, accepted[a], accepted[b])
    {
      assert !test(accepted[b], accepted[a]);
      if accepted[a].bbox.Some? && accepted[b].bbox.Some? {
        IouSymmetric(accepted[a].bbox.value, accepted[b].bbox.value);
      }
    }
    forall a, e | 0 <= a < |accepted| && 0 <= e < |existing|
      ensures !Overlaps(threshold, accepted[a], existing[e])
    {
      assert !ClashesWith(accepted[a], existing, test);
      assert !test(accepted[a], existing[e]);
    }
  }

  /** Where among the candidates each accepted finding stands. */
  function AcceptedPlaces(existing: seq<Finding>, candidates: seq<Finding>, threshold: real): (at: seq<nat>)
    ensures |at| == |Accepted(existing, candidates, threshold)|
    ensures forall a :: 0 <= a < |at| ==>
      at[a] < |candidates| && Accepted(existing, candidates, threshold)[a] == candidates[at[a]]
  {
    Positions(existing, candidates, OverlapTest(threshold))
  }

  /** Two boxes whose IoU exceeds the threshold. */
  predicate IouBeyond(a: Option<BBox>, b: Option<BBox>, threshold: real) {
    a.Some? && b.Some? && Iou(a.value, b.value) > threshold
  }

  /** A candidate is refused exactly when it overlaps a known finding, or one accepted at an earlier place, beyond
      the threshold; so what carries no box is always accepted. */
  lemma {:induction false} RefusedIffOverlaps(existing: seq<Finding>, candidates: seq<Finding>, threshold: real, i: nat)
    requires i < |candidates|
    ensures var at := AcceptedPlaces(existing, candidates, threshold);
      i !in at <==>
        || (exists e :: 0 <= e < |existing| && IouBeyond(candidates[i].bbox, existing[e].bbox, threshold))
        || (exists a :: 0 <= a < |at| && at[a] < i && IouBeyond(candidates[i].bbox, candidates[at[a]].bbox, threshold))
    ensures candidates[i].bbox.None? ==> i in AcceptedPlaces(existing, candidates, threshold)
  {
    var test, at := OverlapTest(threshold), AcceptedPlaces(existing, candidates, threshold);
    ScanIsGreedy(existing, candidates, test);
    assert ClashesWith(candidates[i], existing, test) <==>
           exists e :: 0 <= e < |existing| && Overlaps(threshold, candidates[i], existing[e]) by {
      assert forall e :: 0 <= e < |existing| ==> test(candidates[i], existing[e]) == Overlaps(threshold, candidates[i], existing[e]);
    }
    assert (exists a :: 0 <= a < |at| && at[a] < i && test(candidates[i], candidates[at[a]])) <==>
           exists a :: 0 <= a < |at| && at[a] < i && Overlaps(threshold, candidates[i], candidates[at[a]]);
    if i in at {
      KeptHasNoWitness(existing, candidates, at, test, i);
    } else {
      assert HasWitness(existing, candidates, at, test, i);
    }
  }

  /** Every accepted finding comes from the zoom into one of the first `maxZooms` regions: its box, if any, has positive
      area, lies on the slide, and lies in that region's crop where the model put it in the zoom. */
  lemma {:induction false} AcceptedInsideCrops(regions: seq<NativeBox>, existing: seq<Finding>, width: Pixels, height: Pixels,
                            model: Model, maxZooms: nat, threshold: real, a: nat)
    requires var candidates := Candidates(FirstRegions(regions, maxZooms), width, height, model);
      a < |Accepted(existing, candidates, threshold)|
    ensures var candidates := Candidates(FirstRegions(regions, maxZooms), width, height, model);
      FoundInSome(Accepted(existing, candidates, threshold)[a], regions, maxZooms, width, height, model)
  {
    var chosen := FirstRegions(regions, maxZooms);
    var candidates := Candidates(chosen, width, height, model);
    CandidatesFound(chosen, width, height, model, AcceptedPlaces(existing, candidates, threshold)[a]);
    FoundInMore(Accepted(existing, candidates, threshold)[a], regions, |chosen|, width, height, model);
  }

  /** A box inside the zoom lands between the edges of its crop. */
  lemma {:induction false} LandsBetween(at: real, size: Pixels, lo: int, hi: int, fraction: real)
    requires Lands(at, size, lo, hi, fraction) && lo <= hi && 0.0 <= fraction <= 1.0
    ensures lo as real <= Times(at, size as real) <= hi as real
  {
    TimesMono(0.0, fraction, 0.0, (hi - lo) as real);
    TimesMono(fraction, 1.0, (hi - lo) as real, (hi - lo) as real);
  }
}
