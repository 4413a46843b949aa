/** The three safe rules of the fixer: what each does to one shape, as a function of the shape and its
    siblings, and the loops that do it in place. */
module FixRules {
  import opened Wrappers
  import opened Slides

  const EMU_PER_PT := 12700
  const MIN_FONT_SIZE := 14 * EMU_PER_PT
  const CONTRAST_MIN_RATIO := 4.5
  const EMU_PER_PX := 9525
  const ALIGNMENT_TOLERANCE := 3 * EMU_PER_PX

  datatype Reason =
    | NoReason
    | NoSlideOrBox
    | SlideOutOfRange
    | NoMatchingShape
    | NoApplicableRule
    | NoTextFrame
    | NoSmallRun
    | NoLowContrastRun
    | NoNearSibling
    | RolledBack

  datatype FixResult = FixResult(applied: bool, reason: Reason)

  /** What a rule makes of a shape. */
  datatype Edit = Edit(shape: Shape, result: FixResult)

  // ----- editing runs in document order

  /** The runs before position (pi, ri) replaced by their image, the others as they were. */
  function EditedUpTo(text: seq<Paragraph>, edit: Run -> Run, pi: nat, ri: nat): (edited: seq<Paragraph>)
    ensures |edited| == |text| && forall i :: 0 <= i < |text| ==> |edited[i]| == |text[i]|
  {
    seq(|text|, i requires 0 <= i < |text| =>
      seq(|text[i]|, j requires 0 <= j < |text[i]| =>
        if i < pi || (i == pi && j < ri) then edit(text[i][j]) else text[i][j]))
  }

  function Edited(text: seq<Paragraph>, edit: Run -> Run): seq<Paragraph> {
    EditedUpTo(text, edit, |text|, 0)
  }

  /** Some run before position (pi, ri) satisfies `p`. */
  predicate SomeRunUpTo(text: seq<Paragraph>, p: Run -> bool, pi: nat, ri: nat) {
    exists i, j :: 0 <= i < |text| && 0 <= j < |text[i]| && (i < pi || (i == pi && j < ri)) && p(text[i][j])
  }

  predicate SomeRun(text: seq<Paragraph>, p: Run -> bool) {
    SomeRunUpTo(text, p, |text|, 0)
  }

  lemma {:induction false} SomeRunStep(text: seq<Paragraph>, p: Run -> bool, pi: nat, ri: nat)
    requires pi < |text| && ri < |text[pi]|
    ensures SomeRunUpTo(text, p, pi, ri + 1) <==> SomeRunUpTo(text, p, pi, ri) || p(text[pi][ri])
  {
  }

  lemma {:induction false} EditStep(text: seq<Paragraph>, edit: Run -> Run, pi: nat, ri: nat)
    requires pi < |text| && ri < |text[pi]|
    ensures EditedUpTo(text, edit, pi, ri)[pi][ri] == text[pi][ri]
    ensures EditedUpTo(text, edit, pi, ri + 1) ==
            var before := EditedUpTo(text, edit, pi, ri); before[pi := before[pi][ri := edit(text[pi][ri])]]
  {
    var before := EditedUpTo(text, edit, pi, ri);
    var after := EditedUpTo(text, edit, pi, ri + 1);
    var stepped := before[pi := before[pi][ri := edit(text[pi][ri])]];
    forall i | 0 <= i < |text|
      ensures after[i] == stepped[i]
    {
    }
  }

  /** The slides once the runs of one shape before position (pi, ri) are edited. */
  function PartlyEdited(slides: seq<Slide>, si: nat, k: nat, edit: Run -> Run, pi: nat, ri: nat): seq<Slide>
    requires si < |slides| && k < |slides[si]| && slides[si][k].text.Some?
  {
    var shape := slides[si][k];
    WithShape(slides, si, k, shape.(text := Some(EditedUpTo(shape.text.value, edit, pi, ri))))
  }

  lemma {:induction false} PartlyEditedStep(slides: seq<Slide>, si: nat, k: nat, edit: Run -> Run, pi: nat, ri: nat)
    requires si < |slides| && k < |slides[si]| && HasRun(slides[si][k], pi, ri)
    ensures var now := PartlyEdited(slides, si, k, edit, pi, ri);
      var run := RunAt(slides[si][k], pi, ri);
      var text := now[si][k].text.value;
      && HasRun(now[si][k], pi, ri) && RunAt(now[si][k], pi, ri) == run
      && PartlyEdited(slides, si, k, edit, pi, ri + 1)
           == WithShape(now, si, k, now[si][k].(text := Some(text[pi := text[pi][ri := edit(run)]])))
      && (edit(run) == run ==> PartlyEdited(slides, si, k, edit, pi, ri + 1) == now)
  {
    var shape := slides[si][k];
    var now := PartlyEdited(slides, si, k, edit, pi, ri);
    EditStep(shape.text.value, edit, pi, ri);
    WithShapeTwice(slides, si, k, now[si][k], shape.(text := Some(EditedUpTo(shape.text.value, edit, pi, ri + 1))));
    var text := now[si][k].text.value;
    if edit(text[pi][ri]) == text[pi][ri] {
      assert text[pi][ri := text[pi][ri]] == text[pi];
      assert text[pi := text[pi][ri := text[pi][ri]]] == text;
      WithSameShape(now, si, k);
    }
  }

  lemma {:induction false} EditNextParagraph(text: seq<Paragraph>, edit: Run -> Run, p: Run -> bool, pi: nat)
    requires pi < |text|
    ensures EditedUpTo(text, edit, pi, |text[pi]|) == EditedUpTo(text, edit, pi + 1, 0)
    ensures SomeRunUpTo(text, p, pi, |text[pi]|) <==> SomeRunUpTo(text, p, pi + 1, 0)
  {
    forall i | 0 <= i < |text|
      ensures EditedUpTo(text, edit, pi, |text[pi]|)[i] == EditedUpTo(text, edit, pi + 1, 0)[i]
    {
    }
  }

  lemma {:induction false} EditNothing(text: seq<Paragraph>, edit: Run -> Run)
    ensures EditedUpTo(text, edit, 0, 0) == text
  {
    forall i | 0 <= i < |text|
      ensures EditedUpTo(text, edit, 0, 0)[i] == text[i]
    {
    }
  }

  /** When no run needs the edit, editing changes nothing. */
  lemma {:induction false} EditIdle(text: seq<Paragraph>, edit: Run -> Run, needs: Run -> bool)
    requires forall r: Run :: !needs(r) ==> edit(r) == r
    requires !SomeRun(text, needs)
    ensures Edited(text, edit) == text
  {
    forall i | 0 <= i < |text|
      ensures Edited(text, edit)[i] == text[i]
    {
      forall j | 0 <= j < |text[i]|
        ensures Edited(text, edit)[i][j] == text[i][j]
      {
        assert !needs(text[i][j]);
      }
    }
  }

  // ----- minimum font size

  predicate IsSmall(run: Run) {
    run.size.Some? && run.size.value < MIN_FONT_SIZE
  }

  function Raised(run: Run): Run {
    if IsSmall(run) then run.(size := Some(MIN_FONT_SIZE)) else run
  }

  function RaiseFonts(shape: Shape): Edit {
    if shape.text.None? then Edit(shape, FixResult(false, NoTextFrame))
    else
      var changed := SomeRun(shape.text.value, IsSmall);
      Edit(shape.(text := Some(Edited(shape.text.value, Raised))),
           FixResult(changed, if changed then NoReason else NoSmallRun))
  }

  method ApplyMinFontSize(presentation: Presentation, si: nat, k: nat) returns (result: FixResult)
    requires presentation.HasShape(si, k)
    modifies presentation
    ensures var edit := RaiseFonts(old(presentation.slides)[si][k]);
      result == edit.result &&
      presentation.slides == WithShape(old(presentation.slides), si, k, edit.shape)
  {
    var shape := presentation.slides[si][k];
    ghost var before := presentation.slides;
    WithSameShape(before, si, k);
    if shape.text.None? {
      return FixResult(false, NoTextFrame);
    }
    var text := shape.text.value;
    var changed := false;
    EditNothing(text, Raised);
    for pi := 0 to |text|
      invariant changed == SomeRunUpTo(text, IsSmall, pi, 0)
      invariant presentation.slides == PartlyEdited(before, si, k, Raised, pi, 0)
    {
      for ri := 0 to |text[pi]|
        invariant changed == SomeRunUpTo(text, IsSmall, pi, ri)
        invariant presentation.slides == PartlyEdited(before, si, k, Raised, pi, ri)
      {
        SomeRunStep(text, IsSmall, pi, ri);
        PartlyEditedStep(before, si, k, Raised, pi, ri);
        var run := RunAt(presentation.slides[si][k], pi, ri);
        if run.size.Some? && run.size.value < MIN_FONT_SIZE {
          presentation.SetRun(si, k, pi, ri, run.(size := Some(MIN_FONT_SIZE)));
          changed := true;
        }
      }
      EditNextParagraph(text, Raised, IsSmall, pi);
    }
    result := FixResult(changed, if changed then NoReason else NoSmallRun);
  }

  // ----- contrast

  /** The luminance of one channel as a function of its byte; the 2.4 power itself is not computed here. */
  type Curve = f: Component -> real | IsCurve(f) witness LinearCurve

  ghost predicate IsCurve(f: Component -> real) {
    f(0) == 0.0 && f(255) == 1.0 && forall c: Component :: 0.0 <= f(c) <= 1.0
  }

  function LinearCurve(c: Component): real { c as real / 255.0 }

  function RelativeLuminance(curve: Curve, color: Rgb): (l: real)
    ensures 0.0 <= l <= 1.0
  {
    0.2126 * curve(color.r) + 0.7152 * curve(color.g) + 0.0722 * curve(color.b)
  }

  function ContrastRatio(curve: Curve, a: Rgb, b: Rgb): real {
    var la, lb := RelativeLuminance(curve, a), RelativeLuminance(curve, b);
    (MaxReal(la, lb) + 0.05) / (MinReal(la, lb) + 0.05)
  }

  function Background(shape: Shape): Rgb {
    if shape.fill.Some? then shape.fill.value else WHITE
  }

  function Legible(curve: Curve, background: Rgb): Rgb {
    if RelativeLuminance(curve, background) > 0.5 then BLACK else WHITE
  }

  predicate IsFaint(curve: Curve, background: Rgb, run: Run) {
    run.color.Some? && ContrastRatio(curve, run.color.value, background) < CONTRAST_MIN_RATIO
  }

  function Recolored(curve: Curve, background: Rgb, run: Run): Run {
    if IsFaint(curve, background, run) then run.(color := Some(Legible(curve, background))) else run
  }

  function RecolorText(curve: Curve, shape: Shape): Edit {
    if shape.text.None? then Edit(shape, FixResult(false, NoTextFrame))
    else
      var background := Background(shape);
      var changed := SomeRun(shape.text.value, run => IsFaint(curve, background, run));
      Edit(shape.(text := Some(Edited(shape.text.value, run => Recolored(curve, background, run)))),
           FixResult(changed, if changed then NoReason else NoLowContrastRun))
  }

  method ApplyContrast(curve: Curve, presentation: Presentation, si: nat, k: nat) returns (result: FixResult)
    requires presentation.HasShape(si, k)
    modifies presentation
    ensures var edit := RecolorText(curve, old(presentation.slides)[si][k]);
      result == edit.result &&
      presentation.slides == WithShape(old(presentation.slides), si, k, edit.shape)
  {
    var shape := presentation.slides[si][k];
    ghost var before := presentation.slides;
    WithSameShape(before, si, k);
    if shape.text.None? {
      return FixResult(false, NoTextFrame);
    }
    var text := shape.text.value;
    var background := Background(shape);
    ghost var faint := run => IsFaint(curve, background, run);
    ghost var recolored := run => Recolored(curve, background, run);
    var changed := false;
    EditNothing(text, recolored);
    for pi := 0 to |text|
      invariant changed == SomeRunUpTo(text, faint, pi, 0)
      invariant presentation.slides == PartlyEdited(before, si, k, recolored, pi, 0)
    {
      for ri := 0 to |text[pi]|
        invariant changed == SomeRunUpTo(text, faint, pi, ri)
        invariant presentation.slides == PartlyEdited(before, si, k, recolored, pi, ri)
      {
        SomeRunStep(text, faint, pi, ri);
        PartlyEditedStep(before, si, k, recolored, pi, ri);
        var run := RunAt(presentation.slides[si][k], pi, ri);
        if run.color.Some? {
          if ContrastRatio(curve, run.color.value, background) < CONTRAST_MIN_RATIO {
            var isBackgroundLight := RelativeLuminance(curve, background) > 0.5;
            var newColor := if isBackgroundLight then BLACK else WHITE;
            presentation.SetRun(si, k, pi, ri, run.(color := Some(newColor)));
            changed := true;
          }
        }
      }
      EditNextParagraph(text, recolored, faint, pi);
    }
    result := FixResult(changed, if changed then NoReason else NoLowContrastRun);
  }

  // ----- alignment

  function Distance(a: int, b: int): nat { if a < b then b - a else a - b }

  predicate IsNearSibling(slide: Slide, k: nat, axis: Axis, j: nat)
    requires k < |slide| && j < |slide|
  {
    && j != k
    && slide[k].Edge(axis).Some? && slide[j].Edge(axis).Some?
    && slide[j].Edge(axis) != slide[k].Edge(axis)
    && Distance(slide[j].Edge(axis).value, slide[k].Edge(axis).value) <= ALIGNMENT_TOLERANCE
  }

  /** The first sibling from `j` on whose edge is near but not equal. */
  function FirstNear(slide: Slide, k: nat, axis: Axis, j: nat): (near: Option<nat>)
    requires k < |slide| && j <= |slide|
    ensures near.Some? ==> j <= near.value < |slide| && IsNearSibling(slide, k, axis, near.value)
    ensures near.Some? ==> forall i :: j <= i < near.value ==> !IsNearSibling(slide, k, axis, i)
    ensures near.None? ==> forall i :: j <= i < |slide| ==> !IsNearSibling(slide, k, axis, i)
    decreases |slide| - j
  {
    if j == |slide| then None
    else if IsNearSibling(slide, k, axis, j) then Some(j)
    else FirstNear(slide, k, axis, j + 1)
  }

  function Snapped(slide: Slide, k: nat, axis: Axis): Shape
    requires k < |slide|
  {
    var near := FirstNear(slide, k, axis, 0);
    if near.None? then slide[k] else slide[k].WithEdge(axis, slide[near.value].Edge(axis).value)
  }

  function Align(slide: Slide, k: nat): Edit
    requires k < |slide|
  {
    var leftMoved := FirstNear(slide, k, Left, 0).Some?;
    var afterLeft := slide[k := Snapped(slide, k, Left)];
    var topMoved := FirstNear(afterLeft, k, Top, 0).Some?;
    var changed := leftMoved || topMoved;
    Edit(Snapped(afterLeft, k, Top), FixResult(changed, if changed then NoReason else NoNearSibling))
  }

  /** One axis of the rule: scan the siblings in order and copy the first near edge. */
  method SnapEdge(presentation: Presentation, si: nat, k: nat, axis: Axis) returns (changed: bool)
    requires presentation.HasShape(si, k)
    modifies presentation
    ensures var slide := old(presentation.slides)[si];
      changed == FirstNear(slide, k, axis, 0).Some? &&
      presentation.slides == WithShape(old(presentation.slides), si, k, Snapped(slide, k, axis))
  {
    var slide := presentation.slides[si];
    WithSameShape(presentation.slides, si, k);
    var target := slide[k].Edge(axis);
    changed := false;
    if target.None? {
      return;
    }
    var j := 0;
    while j < |slide|
      invariant 0 <= j <= |slide|
      invariant FirstNear(slide, k, axis, 0) == FirstNear(slide, k, axis, j)
      invariant presentation.slides == old(presentation.slides)
    {
      if j != k {
        var other := slide[j].Edge(axis);
        if other.Some? && other.value != target.value {
          if Distance(other.value, target.value) <= ALIGNMENT_TOLERANCE {
            presentation.SetEdge(si, k, axis, other.value);
            return true;
          }
        }
      }
      j := j + 1;
    }
  }

  method ApplyAlignment(presentation: Presentation, si: nat, k: nat) returns (result: FixResult)
    requires presentation.HasShape(si, k)
    modifies presentation
    ensures var edit := Align(old(presentation.slides)[si], k);
      result == edit.result &&
      presentation.slides == WithShape(old(presentation.slides), si, k, edit.shape)
  {
    ghost var before := presentation.slides;
    var leftMoved := SnapEdge(presentation, si, k, Left);
    WithShapeTwice(before, si, k, Snapped(before[si], k, Left), Align(before[si], k).shape);
    var topMoved := SnapEdge(presentation, si, k, Top);
    var changed := leftMoved || topMoved;
    result := FixResult(changed, if changed then NoReason else NoNearSibling);
  }

  // ----- what one rule can do to a shape

  /** `after` is `before` with each run replaced by its image and nothing else changed. */
  ghost predicate OnlyRunsChange(before: Shape, after: Shape, edit: Run -> Run) {
    && after == before.(text := after.text)
    && (before.text.None? <==> after.text.None?)
    && (before.text.Some? ==> EachRun(before.text.value, after.text.value, edit))
  }

  ghost predicate EachRun(before: seq<Paragraph>, after: seq<Paragraph>, edit: Run -> Run) {
    && |before| == |after|
    && (forall i :: 0 <= i < |before| ==> |before[i]| == |after[i]|)
    && (forall i, j :: 0 <= i < |before| && 0 <= j < |before[i]| ==> after[i][j] == edit(before[i][j]))
  }

  /** The font rule changes only explicit sizes below 14 pt, and those to 14 pt; when it reports no change it made
      none. */
  lemma {:induction false} RaiseFontsSafe(shape: Shape)
    ensures var edit := RaiseFonts(shape);
      && OnlyRunsChange(shape, edit.shape, (run: Run) =>
           if run.size.Some? && run.size.value < 14 * 12700 then Run(Some(14 * 12700), run.color) else run)
      && (!edit.result.applied ==> edit.shape == shape)
  {
    if shape.text.Some? {
      var text, after := shape.text.value, RaiseFonts(shape).shape.text.value;
      assert forall i, j :: 0 <= i < |text| && 0 <= j < |text[i]| ==> after[i][j] == Raised(text[i][j]);
      if !RaiseFonts(shape).result.applied {
        EditIdle(text, Raised, IsSmall);
      }
    }
  }

  /** The contrast rule changes only explicit colours below 4.5:1 against the fill, white when there is none, and
      those to black or white; when it reports no change it made none. */
  lemma {:induction false} RecolorTextSafe(curve: Curve, shape: Shape)
    ensures var edit := RecolorText(curve, shape);
      var background := if shape.fill.Some? then shape.fill.value else WHITE;
      var extreme := if RelativeLuminance(curve, background) > 0.5 then BLACK else WHITE;
      && OnlyRunsChange(shape, edit.shape, (run: Run) =>
           if run.color.Some? && ContrastRatio(curve, run.color.value, background) < 4.5
           then Run(run.size, Some(extreme)) else run)
      && (!edit.result.applied ==> edit.shape == shape)
  {
    if shape.text.Some? && !RecolorText(curve, shape).result.applied {
      var background := Background(shape);
      EditIdle(shape.text.value, run => Recolored(curve, background, run), run => IsFaint(curve, background, run));
    }
  }

  /** An edge that stays, or lands within the tolerance on the edge of another shape of the slide. */
  ghost predicate SnapsOnto(slide: Slide, k: nat, axis: Axis, edge: Option<int>)
    requires k < |slide|
  {
    edge == slide[k].Edge(axis) ||
    exists j :: 0 <= j < |slide| && IsNearSibling(slide, k, axis, j) && edge == slide[j].Edge(axis)
  }

  /** The alignment rule changes only the left and top edges, each onto a near sibling's; when it reports no change
      it made none. */
  lemma {:induction false} AlignSafe(slide: Slide, k: nat)
    requires k < |slide|
    ensures var edit := Align(slide, k);
      && edit.shape == slide[k].(left := edit.shape.left, top := edit.shape.top)
      && SnapsOnto(slide, k, Left, edit.shape.left) && SnapsOnto(slide, k, Top, edit.shape.top)
      && (!edit.result.applied ==> edit.shape == slide[k])
  {
    var afterLeft := slide[k := Snapped(slide, k, Left)];
    var near := FirstNear(afterLeft, k, Top, 0);
    if near.Some? {
      assert IsNearSibling(slide, k, Top, near.value);
    }
    if FirstNear(slide, k, Left, 0).None? {
      assert slide[k := slide[k]] == slide;
    }
  }

  // ----- what any number of rules can do to a shape

  ghost predicate SafeRunEdit(before: Run, after: Run) {
    && (after.size == before.size ||
        (before.size.Some? && before.size.value < MIN_FONT_SIZE && after.size == Some(MIN_FONT_SIZE)))
    && (after.color == before.color ||
        (before.color.Some? && (after.color == Some(BLACK) || after.color == Some(WHITE))))
  }

  ghost predicate SafeTextEdit(before: seq<Paragraph>, after: seq<Paragraph>) {
    && |before| == |after|
    && (forall i :: 0 <= i < |before| ==> |before[i]| == |after[i]|)
    && (forall i, j :: 0 <= i < |before| && 0 <= j < |before[i]| ==> SafeRunEdit(before[i][j], after[i][j]))
  }

  /** Id, extent, fill and run structure stay, edges are set exactly if they were. Every size is the old one, or
      14 pt where that was smaller; every colour is the old one, or black or white where one was set. */
  ghost predicate SafeEdit(before: Shape, after: Shape) {
    && after == before.(left := after.left, top := after.top, text := after.text)
    && (before.left.None? <==> after.left.None?) && (before.top.None? <==> after.top.None?)
    && (before.text.None? <==> after.text.None?)
    && (before.text.Some? ==> SafeTextEdit(before.text.value, after.text.value))
  }

  lemma {:induction false} SafeEditTransitive(a: Shape, b: Shape, c: Shape)
    requires SafeEdit(a, b) && SafeEdit(b, c)
    ensures SafeEdit(a, c)
  {
    if a.text.Some? {
      var ta, tb, tc := a.text.value, b.text.value, c.text.value;
      forall i, j | 0 <= i < |ta| && 0 <= j < |ta[i]|
        ensures SafeRunEdit(ta[i][j], tc[i][j])
      {
        assert SafeRunEdit(ta[i][j], tb[i][j]) && SafeRunEdit(tb[i][j], tc[i][j]);
      }
    }
  }

  /** Some shape of the slide has this edge. */
  ghost predicate IsAnEdge(slide: Slide, axis: Axis, edge: Option<int>) {
    exists j :: 0 <= j < |slide| && slide[j].Edge(axis) == edge
  }

  /** Every edge on the slide is one that some shape of it had before. */
  ghost predicate EdgesFrom(before: Slide, after: Slide) {
    forall k, axis {:trigger IsAnEdge(before, axis, after[k].Edge(axis))} :: 0 <= k < |after| ==>
      IsAnEdge(before, axis, after[k].Edge(axis))
  }

  lemma {:induction false} SameEdges(slide: Slide)
    ensures EdgesFrom(slide, slide)
  {
  }

  lemma {:induction false} EdgesFromTransitive(a: Slide, b: Slide, c: Slide)
    requires EdgesFrom(a, b) && EdgesFrom(b, c)
    ensures EdgesFrom(a, c)
  {
    forall k, axis | 0 <= k < |c|
      ensures IsAnEdge(a, axis, c[k].Edge(axis))
    {
      assert IsAnEdge(b, axis, c[k].Edge(axis));
      var j :| 0 <= j < |b| && b[j].Edge(axis) == c[k].Edge(axis);
      assert IsAnEdge(a, axis, b[j].Edge(axis));
    }
  }

  lemma {:induction false} RunEditIsSafe(before: Shape, after: Shape, edit: Run -> Run)
    requires OnlyRunsChange(before, after, edit)
    requires forall run: Run :: SafeRunEdit(run, edit(run))
    ensures SafeEdit(before, after)
  {
  }

  /** Putting a shape back that kept its edges, or snapped them onto siblings'. */
  lemma {:induction false} SnapsFrom(slide: Slide, k: nat, after: Shape)
    requires k < |slide| && SnapsOnto(slide, k, Left, after.left) && SnapsOnto(slide, k, Top, after.top)
    ensures EdgesFrom(slide, slide[k := after])
  {
    var edited := slide[k := after];
    forall i, axis | 0 <= i < |edited|
      ensures IsAnEdge(slide, axis, edited[i].Edge(axis))
    {
      if i == k {
        assert SnapsOnto(slide, k, axis, after.Edge(axis));
      }
    }
  }

  // ----- minimum font size: what a raised shape satisfies

  /** After the rule no explicit size is below 14 pt, so a second pass finds nothing to do. */
  lemma {:induction false} RaiseFontsReaches(shape: Shape)
    ensures var after := RaiseFonts(shape).shape;
      && (after.text.Some? ==> !SomeRun(after.text.value, IsSmall))
      && !RaiseFonts(after).result.applied && RaiseFonts(after).shape == after
  {
    var after := RaiseFonts(shape).shape;
    if after.text.Some? {
      assert forall i, j :: 0 <= i < |after.text.value| && 0 <= j < |after.text.value[i]| ==>
        after.text.value[i][j] == Raised(shape.text.value[i][j]);
    }
    RaiseFontsSafe(after);
  }

  // ----- contrast: when the recolouring meets the WCAG minimum

  lemma {:induction false} RatioAtLeast(lighter: real, darker: real, bound: real)
    requires darker > 0.0
    ensures lighter / darker >= bound <==> lighter >= bound * darker
  {
    var q := lighter / darker;
    assert q * darker == lighter;
    if q >= bound {
      assert q * darker >= bound * darker;
    } else {
      assert q * darker < bound * darker;
    }
  }

  /** The ratio is symmetric and lies between 1 and 21. */
  lemma {:induction false} ContrastRange(curve: Curve, a: Rgb, b: Rgb)
    ensures ContrastRatio(curve, a, b) == ContrastRatio(curve, b, a)
    ensures 1.0 <= ContrastRatio(curve, a, b) <= 21.0
    ensures ContrastRatio(curve, BLACK, WHITE) == 21.0
  {
    var la, lb := RelativeLuminance(curve, a), RelativeLuminance(curve, b);
    var lighter, darker := MaxReal(la, lb) + 0.05, MinReal(la, lb) + 0.05;
    RatioAtLeast(lighter, darker, 1.0);
    RatioAtLeast(lighter, darker, 21.0);
    assert lighter / darker > 21.0 ==> lighter > 21.0 * darker by {
      assert (lighter / darker) * darker == lighter;
    }
  }

  function OnlyRed(c: Component): Rgb { Rgb(c, 0, 0) }
  function OnlyGreen(c: Component): Rgb { Rgb(0, c, 0) }
  function OnlyBlue(c: Component): Rgb { Rgb(0, 0, c) }

  /** The luminances of the pure colours (WCAG 2.1, definition of relative luminance); a colour's is the sum of its
      channels', and white's is 1. */
  lemma {:induction false} LuminanceOfChannels(curve: Curve, color: Rgb)
    ensures RelativeLuminance(curve, OnlyRed(255)) == 0.2126
    ensures RelativeLuminance(curve, OnlyGreen(255)) == 0.7152
    ensures RelativeLuminance(curve, OnlyBlue(255)) == 0.0722
    ensures RelativeLuminance(curve, BLACK) == 0.0 && RelativeLuminance(curve, WHITE) == 1.0
    ensures RelativeLuminance(curve, color) ==
            RelativeLuminance(curve, OnlyRed(color.r)) + RelativeLuminance(curve, OnlyGreen(color.g))
              + RelativeLuminance(curve, OnlyBlue(color.b))
  {
  }

  /** Brighter by WCAG's ratio: the contrast is what the lighter luminance plus 0.05 must be divided by to give the
      darker one plus 0.05. */
  lemma {:induction false} ContrastIsQuotient(curve: Curve, a: Rgb, b: Rgb)
    ensures var la, lb := RelativeLuminance(curve, a), RelativeLuminance(curve, b);
      && (la >= lb ==> ContrastRatio(curve, a, b) * (lb + 0.05) == la + 0.05)
      && (la <= lb ==> ContrastRatio(curve, a, b) * (la + 0.05) == lb + 0.05)
  {
    var la, lb := RelativeLuminance(curve, a), RelativeLuminance(curve, b);
    QuotientTimes(MaxReal(la, lb) + 0.05, MinReal(la, lb) + 0.05);
  }

  lemma {:induction false} QuotientTimes(n: real, d: real)
    requires d > 0.0
    ensures (n / d) * d == n
  {
  }

  /** White text on, and black text on, a background of the given luminance. */
  lemma {:induction false} ExtremeContrast(curve: Curve, background: Rgb, bound: real)
    ensures ContrastRatio(curve, WHITE, background) >= bound
       <==> 1.05 >= bound * (RelativeLuminance(curve, background) + 0.05)
    ensures ContrastRatio(curve, BLACK, background) >= bound
       <==> RelativeLuminance(curve, background) + 0.05 >= bound * 0.05
  {
    var l := RelativeLuminance(curve, background);
    RatioAtLeast(1.05, l + 0.05, bound);
    RatioAtLeast(l + 0.05, 0.05, bound);
  }

  /** The luminances for which the rule's choice of black or white meets the minimum it is there to restore. */
  predicate Restorable(curve: Curve, background: Rgb) {
    var l := RelativeLuminance(curve, background);
    l > 0.5 || l <= 11.0 / 60.0
  }

  /** The chosen colour always reaches 21/11, and reaches 4.5 exactly on the restorable backgrounds. */
  lemma {:induction false} LegibleReaches(curve: Curve, background: Rgb)
    ensures ContrastRatio(curve, Legible(curve, background), background) >= 21.0 / 11.0
    ensures ContrastRatio(curve, Legible(curve, background), background) >= CONTRAST_MIN_RATIO
       <==> Restorable(curve, background)
  {
    ExtremeContrast(curve, background, 21.0 / 11.0);
    ExtremeContrast(curve, background, CONTRAST_MIN_RATIO);
  }

  /** On every background where the rule's choice falls short, the other extreme would have met the minimum. */
  lemma {:induction false} OtherExtremeWouldDo(curve: Curve, background: Rgb)
    requires !Restorable(curve, background)
    ensures Legible(curve, background) == WHITE
    ensures ContrastRatio(curve, BLACK, background) >= CONTRAST_MIN_RATIO
  {
    ExtremeContrast(curve, background, CONTRAST_MIN_RATIO);
  }

  /** The documented promise, text below 4.5:1 is recoloured to meet it, holds of a shape exactly when nothing
      was below the threshold or the background is restorable. */
  lemma {:induction false} RecolorReachesIff(curve: Curve, shape: Shape)
    requires shape.text.Some?
    ensures var after := RecolorText(curve, shape).shape;
      !SomeRun(after.text.value, run => IsFaint(curve, Background(shape), run))
      <==> !RecolorText(curve, shape).result.applied || Restorable(curve, Background(shape))
  {
    var background := Background(shape);
    var faint := run => IsFaint(curve, background, run);
    var text, after := shape.text.value, RecolorText(curve, shape).shape.text.value;
    LegibleReaches(curve, background);
    assert forall i, j :: 0 <= i < |text| && 0 <= j < |text[i]| ==>
      after[i][j] == Recolored(curve, background, text[i][j]);
    if SomeRun(text, faint) {
      var i, j :| 0 <= i < |text| && 0 <= j < |text[i]| && faint(text[i][j]);
      assert after[i][j].color == Some(Legible(curve, background));
      assert faint(after[i][j]) <==> !Restorable(curve, background);
    }
  }

  const RED := Rgb(255, 0, 0)

  /** Red text on red. */
  const RED_ON_RED := Shape(1, None, None, None, None, Some([[Run(None, Some(RED))]]), Some(RED))

  /** Under every channel curve red text on red turns white and stays below the minimum, so the rule reports a change
      again at every further pass. */
  lemma {:induction false} RedStaysFaint(curve: Curve)
    ensures !Restorable(curve, RED)
    ensures var after := RecolorText(curve, RED_ON_RED).shape;
      && after == RED_ON_RED.(text := Some([[Run(None, Some(WHITE))]]))
      && ContrastRatio(curve, WHITE, RED) < CONTRAST_MIN_RATIO
      && RecolorText(curve, after).result.applied && RecolorText(curve, after).shape == after
  {
    assert RelativeLuminance(curve, RED) == 0.2126;
    ContrastRange(curve, RED, RED);
    ExtremeContrast(curve, RED, CONTRAST_MIN_RATIO);
    assert ContrastRatio(curve, RED, RED) == 1.0;
    var white := Run(None, Some(WHITE));
    assert Recolored(curve, RED, RED_ON_RED.text.value[0][0]) == white && Recolored(curve, RED, white) == white;
    OneRun(curve, RED_ON_RED, RED_ON_RED.text.value[0][0]);
    OneRun(curve, RED_ON_RED.(text := Some([[white]])), white);
  }

  lemma {:induction false} OneRun(curve: Curve, shape: Shape, run: Run)
    requires shape.text == Some([[run]])
    ensures RecolorText(curve, shape).shape == shape.(text := Some([[Recolored(curve, Background(shape), run)]]))
    ensures RecolorText(curve, shape).result.applied <==> IsFaint(curve, Background(shape), run)
  {
    var background := Background(shape);
    var after := RecolorText(curve, shape).shape.text.value;
    assert after[0][0] == Recolored(curve, background, run);
    assert after[0] == [Recolored(curve, background, run)];
    assert after == [[Recolored(curve, background, run)]];
    assert shape.text.value[0][0] == run;
  }

  // ----- alignment: where an edge can move

  /** An edge stays, or moves by at most three pixels onto the edge of the first near sibling. */
  lemma {:induction false} SnapIsNear(slide: Slide, k: nat, axis: Axis)
    requires k < |slide|
    ensures var after := Snapped(slide, k, axis);
      || (after == slide[k] && forall j :: 0 <= j < |slide| ==> !IsNearSibling(slide, k, axis, j))
      || exists j :: 0 <= j < |slide| && IsNearSibling(slide, k, axis, j)
           && after.Edge(axis) == slide[j].Edge(axis)
           && Distance(after.Edge(axis).value, slide[k].Edge(axis).value) <= ALIGNMENT_TOLERANCE
           && forall i :: 0 <= i < j ==> !IsNearSibling(slide, k, axis, i)
  {
    var near := FirstNear(slide, k, axis, 0);
    if near.Some? {
      assert IsNearSibling(slide, k, axis, near.value);
    }
  }

  /** The lefts and tops of the shapes of a slide. */
  function Lefts(slide: Slide): (edges: seq<Option<int>>)
    ensures |edges| == |slide| && forall j :: 0 <= j < |slide| ==> edges[j] == slide[j].left
  {
    seq(|slide|, j requires 0 <= j < |slide| => slide[j].left)
  }

  function Tops(slide: Slide): (edges: seq<Option<int>>)
    ensures |edges| == |slide| && forall j :: 0 <= j < |slide| ==> edges[j] == slide[j].top
  {
    seq(|slide|, j requires 0 <= j < |slide| => slide[j].top)
  }

  /** Two set edges that differ by at most three pixels of 9525 EMU. */
  ghost predicate NearBy(a: Option<int>, b: Option<int>) {
    a.Some? && b.Some? && a != b && -28575 <= a.value - b.value <= 28575
  }

  ghost predicate SomeNear(edges: seq<Option<int>>, k: nat)
    requires k < |edges|
  {
    exists j :: 0 <= j < |edges| && NearBy(edges[j], edges[k])
  }

  /** Edge `k` becomes the first of the edges near it, and stays when there is none. */
  ghost predicate LandsOn(edges: seq<Option<int>>, k: nat, edge: Option<int>)
    requires k < |edges|
  {
    if SomeNear(edges, k) then
      exists j :: 0 <= j < |edges| && NearBy(edges[j], edges[k]) && edge == edges[j]
        && forall i :: 0 <= i < j ==> !NearBy(edges[i], edges[k])
    else edge == edges[k]
  }

  lemma {:induction false} SnapLands(slide: Slide, k: nat, axis: Axis, edges: seq<Option<int>>)
    requires k < |slide| == |edges| && forall j :: 0 <= j < |slide| ==> edges[j] == slide[j].Edge(axis)
    ensures LandsOn(edges, k, Snapped(slide, k, axis).Edge(axis))
    ensures FirstNear(slide, k, axis, 0).Some? <==> SomeNear(edges, k)
  {
    assert forall j :: 0 <= j < |slide| ==> (IsNearSibling(slide, k, axis, j) <==> NearBy(edges[j], edges[k]));
    var near := FirstNear(slide, k, axis, 0);
    if near.Some? {
      assert NearBy(edges[near.value], edges[k]);
    }
  }

  /** What the alignment rule does, on both axes: each edge of the shape becomes the first near edge of its kind on
      the slide, and stays when none is near; nothing else of the shape changes; and the rule reports a change exactly
      when some left or some top was near. */
  lemma {:induction false} AlignLands(slide: Slide, k: nat)
    requires k < |slide|
    ensures var edit := Align(slide, k);
      && edit.shape == slide[k].(left := edit.shape.left, top := edit.shape.top)
      && LandsOn(Lefts(slide), k, edit.shape.left) && LandsOn(Tops(slide), k, edit.shape.top)
      && (edit.result.applied <==> SomeNear(Lefts(slide), k) || SomeNear(Tops(slide), k))
  {
    var afterLeft := slide[k := Snapped(slide, k, Left)];
    SnapLands(slide, k, Left, Lefts(slide));
    SnapLands(afterLeft, k, Top, Tops(slide));
  }

  /** Comparing a shape with itself never matters: its own edge is equal, hence never near. */
  lemma {:induction false} SelfIsNeverNear(slide: Slide, k: nat, axis: Axis)
    requires k < |slide|
    ensures forall j :: 0 <= j < |slide| ==>
      (IsNearSibling(slide, k, axis, j) <==>
        slide[k].Edge(axis).Some? && slide[j].Edge(axis).Some? && slide[j].Edge(axis) != slide[k].Edge(axis)
        && Distance(slide[j].Edge(axis).value, slide[k].Edge(axis).value) <= ALIGNMENT_TOLERANCE)
  {
  }
}
