/** When the order of the findings does not matter to a fix: text rules leave every frame alone, so they commute;
    alignment moves frames, so it commutes only with what happens on other slides. */
module FixOrder {
  import opened Wrappers
  import opened Geometry
  import opened Slides
  import opened FixRules
  import opened PptxFixer
  import opened FixProperties

  /** The slide a finding points at and the rule it asks for. */
  datatype Ask = Ask(slideNum: int, rule: RuleName)

  ghost predicate Asks(info: FindingInfo, ask: Ask) {
    info.autoFixable && info.slideNum == Some(ask.slideNum) && info.bbox.Some? && IsItsRule(info, ask.rule)
  }

  /** Two asks for one slide, one of them for an alignment. */
  predicate Clash(a: Ask, b: Ask) {
    1 <= a.slideNum == b.slideNum && (a.rule.Alignment? || b.rule.Alignment?)
  }

  ghost predicate Interfere(x: FindingInfo, y: FindingInfo) {
    exists a, b :: Asks(x, a) && Asks(y, b) && Clash(a, b)
  }

  ghost predicate Peaceful(infos: seq<FindingInfo>) {
    forall i, j :: 0 <= i < |infos| && 0 <= j < |infos| && infos[i] != infos[j] ==> !Interfere(infos[i], infos[j])
  }

  // ----- what a finding does, seen from its slide

  datatype Effect = Effect(slide: Slide, touched: Option<int>)

  function EffectOf(curve: Curve, width: Extent, height: Extent, slide: Slide, info: FindingInfo): (effect: Effect)
    requires info.bbox.Some?
    ensures |effect.slide| == |slide|
  {
    var k, rule := BestMatch(slide, info.bbox.value, width, height, |slide|), FirstRule(RULES, info);
    if k.None? || rule.None? then Effect(slide, None)
    else
      var edit := RuleEdit(curve, rule.value, slide, k.value);
      Effect(slide[k.value := edit.shape], if edit.result.applied then Some(edit.shape.id) else None)
  }

  predicate Reaches(info: FindingInfo, slides: seq<Slide>) {
    info.autoFixable && info.slideNum.Some? && 1 <= info.slideNum.value <= |slides| && info.bbox.Some?
  }

  function Keys(slideNum: int, touched: Option<int>): set<Key> {
    if touched.Some? then {(slideNum, touched.value)} else {}
  }

  function After(curve: Curve, width: Extent, height: Extent, state: State, info: FindingInfo): State {
    ApplyOne(curve, width, height, state, info).state
  }

  function WithEffect(state: State, slideNum: int, effect: Effect): State
    requires 1 <= slideNum <= |state.slides|
  {
    State(state.slides[slideNum - 1 := effect.slide], state.touched + Keys(slideNum, effect.touched))
  }

  lemma {:induction false} AfterIsEffect(curve: Curve, width: Extent, height: Extent, state: State, info: FindingInfo)
    ensures After(curve, width, height, state, info) ==
      if Reaches(info, state.slides)
      then WithEffect(state, info.slideNum.value,
                      EffectOf(curve, width, height, state.slides[info.slideNum.value - 1], info))
      else state
  {
    if Reaches(info, state.slides) {
      var si := info.slideNum.value - 1;
      var slide := state.slides[si];
      assert state.slides[si := slide] == state.slides;
      var k, rule := BestMatch(slide, info.bbox.value, width, height, |slide|), FirstRule(RULES, info);
      if k.Some? && rule.Some? {
        var edit := RuleEdit(curve, rule.value, slide, k.value);
        assert WithShape(state.slides, si, k.value, edit.shape) == state.slides[si := slide[k.value := edit.shape]];
      }
    }
  }

  // ----- text rules leave the frames alone

  ghost predicate SameFrame(a: Shape, b: Shape) {
    a.left == b.left && a.top == b.top && a.width == b.width && a.height == b.height
  }

  ghost predicate SameFrames(a: Slide, b: Slide) {
    |a| == |b| && forall k :: 0 <= k < |a| ==> SameFrame(a[k], b[k])
  }

  /** Matching looks at the frames only. */
  lemma {:induction false} SameFramesMatch(a: Slide, b: Slide, bbox: BBox, width: Extent, height: Extent, n: nat)
    requires SameFrames(a, b) && n <= |a|
    ensures BestMatch(a, bbox, width, height, n) == BestMatch(b, bbox, width, height, n)
  {
    assert forall k :: 0 <= k < |a| ==> SameFrame(a[k], b[k]);
    if n > 0 {
      SameFramesMatch(a, b, bbox, width, height, n - 1);
    }
  }

  function TextEdit(curve: Curve, rule: RuleName, shape: Shape): Edit
    requires !rule.Alignment?
  {
    if rule.MinFontSize? then RaiseFonts(shape) else RecolorText(curve, shape)
  }

  lemma {:induction false} TextEditKeepsFrame(curve: Curve, rule: RuleName, shape: Shape)
    requires !rule.Alignment?
    ensures var after := TextEdit(curve, rule, shape).shape; SameFrame(shape, after) && after.id == shape.id
  {
  }

  /** Raising sizes and recolouring do not see each other. */
  lemma {:induction false} TextEditsCommute(curve: Curve, shape: Shape)
    ensures var raised, recolored := RaiseFonts(shape), RecolorText(curve, shape);
      && RecolorText(curve, raised.shape).shape == RaiseFonts(recolored.shape).shape
      && RecolorText(curve, raised.shape).result.applied == recolored.result.applied
      && RaiseFonts(recolored.shape).result.applied == raised.result.applied
  {
    if shape.text.Some? {
      var text, background := shape.text.value, Background(shape);
      var faint, recolor := run => IsFaint(curve, background, run), run => Recolored(curve, background, run);
      EditsCommute(text, Raised, recolor);
      EditKeepsTest(text, Raised, faint);
      EditKeepsTest(text, recolor, IsSmall);
    }
  }

  lemma {:induction false} EditsCommute(text: seq<Paragraph>, f: Run -> Run, g: Run -> Run)
    requires forall run: Run :: f(g(run)) == g(f(run))
    ensures Edited(Edited(text, f), g) == Edited(Edited(text, g), f)
  {
    var fg, gf := Edited(Edited(text, f), g), Edited(Edited(text, g), f);
    forall i | 0 <= i < |text|
      ensures fg[i] == gf[i]
    {
    }
  }

  lemma {:induction false} EditKeepsTest(text: seq<Paragraph>, f: Run -> Run, p: Run -> bool)
    requires forall run: Run :: p(f(run)) == p(run)
    ensures SomeRun(Edited(text, f), p) == SomeRun(text, p)
  {
    var edited := Edited(text, f);
    assert forall i, j :: 0 <= i < |text| && 0 <= j < |text[i]| ==> edited[i][j] == f(text[i][j]);
    if SomeRun(text, p) {
      var i, j :| 0 <= i < |text| && 0 <= j < |text[i]| && p(text[i][j]);
      assert p(edited[i][j]);
    }
  }

  ghost predicate TextOnly(info: FindingInfo) {
    FirstRule(RULES, info) != Some(Alignment)
  }

  lemma {:induction false} TextEffectKeepsFrames(curve: Curve, width: Extent, height: Extent, slide: Slide, info: FindingInfo)
    requires info.bbox.Some? && TextOnly(info)
    ensures SameFrames(slide, EffectOf(curve, width, height, slide, info).slide)
  {
    var k, rule := BestMatch(slide, info.bbox.value, width, height, |slide|), FirstRule(RULES, info);
    if k.Some? && rule.Some? {
      TextEditKeepsFrame(curve, rule.value, slide[k.value]);
    }
  }

  /** A text rule on one shape of a slide. */
  function OnShape(curve: Curve, rule: RuleName, slide: Slide, k: nat): (effect: Effect)
    requires !rule.Alignment? && k < |slide|
    ensures |effect.slide| == |slide|
  {
    var edit := TextEdit(curve, rule, slide[k]);
    Effect(slide[k := edit.shape], if edit.result.applied then Some(slide[k].id) else None)
  }

  function OnShapeIfAny(curve: Curve, rule: Option<RuleName>, slide: Slide, k: Option<nat>): (effect: Effect)
    requires rule != Some(Alignment) && (k.Some? ==> k.value < |slide|)
    ensures |effect.slide| == |slide|
  {
    if k.None? || rule.None? then Effect(slide, None) else OnShape(curve, rule.value, slide, k.value)
  }

  /** A text finding works on the same shape of every slide with these frames. */
  lemma {:induction false} TextEffect(curve: Curve, width: Extent, height: Extent, frames: Slide, slide: Slide, info: FindingInfo)
    requires info.bbox.Some? && TextOnly(info) && SameFrames(frames, slide)
    ensures var k, rule := BestMatch(frames, info.bbox.value, width, height, |frames|), FirstRule(RULES, info);
      EffectOf(curve, width, height, slide, info) ==
        OnShapeIfAny(curve, rule, slide, k)
  {
    SameFramesMatch(frames, slide, info.bbox.value, width, height, |frames|);
    var k, rule := BestMatch(slide, info.bbox.value, width, height, |slide|), FirstRule(RULES, info);
    if k.Some? && rule.Some? {
      TextEditKeepsFrame(curve, rule.value, slide[k.value]);
    }
  }

  ghost predicate SameTouched(a: Effect, b: Effect, c: Effect, d: Effect) {
    forall n :: Keys(n, a.touched) + Keys(n, b.touched) == Keys(n, c.touched) + Keys(n, d.touched)
  }

  lemma {:induction false} OnShapesCommute(curve: Curve, rx: RuleName, ry: RuleName, slide: Slide, kx: nat, ky: nat)
    requires !rx.Alignment? && !ry.Alignment? && kx < |slide| && ky < |slide|
    ensures var ex, ey := OnShape(curve, rx, slide, kx), OnShape(curve, ry, slide, ky);
      var exy, eyx := OnShape(curve, ry, ex.slide, ky), OnShape(curve, rx, ey.slide, kx);
      exy.slide == eyx.slide && SameTouched(ex, exy, ey, eyx)
  {
    var sx, sy := TextEdit(curve, rx, slide[kx]).shape, TextEdit(curve, ry, slide[ky]).shape;
    TextEditKeepsFrame(curve, rx, slide[kx]);
    TextEditKeepsFrame(curve, ry, slide[ky]);
    if kx != ky {
      assert slide[kx := sx][ky := sy] == slide[ky := sy][kx := sx];
    } else if rx != ry {
      TextEditsCommute(curve, slide[kx]);
      var both := TextEdit(curve, ry, sx).shape;
      assert slide[kx := sx][kx := both] == slide[kx := both] == slide[kx := sy][kx := both];
    }
  }

  lemma {:induction false} OnShapesIfAnyCommute(curve: Curve, rx: Option<RuleName>, ry: Option<RuleName>, slide: Slide,
                                                kx: Option<nat>, ky: Option<nat>)
    requires rx != Some(Alignment) && ry != Some(Alignment)
    requires (kx.Some? ==> kx.value < |slide|) && (ky.Some? ==> ky.value < |slide|)
    ensures var ex, ey := OnShapeIfAny(curve, rx, slide, kx), OnShapeIfAny(curve, ry, slide, ky);
      var exy, eyx := OnShapeIfAny(curve, ry, ex.slide, ky), OnShapeIfAny(curve, rx, ey.slide, kx);
      exy.slide == eyx.slide && SameTouched(ex, exy, ey, eyx)
  {
    if kx.Some? && rx.Some? && ky.Some? && ry.Some? {
      OnShapesCommute(curve, rx.value, ry.value, slide, kx.value, ky.value);
    }
  }

  /** Two text findings on one slide commute. */
  lemma {:induction false} TextEffectsCommute(curve: Curve, width: Extent, height: Extent, slide: Slide, x: FindingInfo, y: FindingInfo)
    requires x.bbox.Some? && y.bbox.Some? && TextOnly(x) && TextOnly(y)
    ensures var ex, ey := EffectOf(curve, width, height, slide, x), EffectOf(curve, width, height, slide, y);
      var exy, eyx := EffectOf(curve, width, height, ex.slide, y), EffectOf(curve, width, height, ey.slide, x);
      exy.slide == eyx.slide && SameTouched(ex, exy, ey, eyx)
  {
    var ex, ey := EffectOf(curve, width, height, slide, x), EffectOf(curve, width, height, slide, y);
    TextEffectKeepsFrames(curve, width, height, slide, x);
    TextEffectKeepsFrames(curve, width, height, slide, y);
    TextEffect(curve, width, height, slide, slide, x);
    TextEffect(curve, width, height, slide, slide, y);
    TextEffect(curve, width, height, slide, ex.slide, y);
    TextEffect(curve, width, height, slide, ey.slide, x);
    var kx, ky := BestMatch(slide, x.bbox.value, width, height, |slide|), BestMatch(slide, y.bbox.value, width, height, |slide|);
    var rx, ry := FirstRule(RULES, x), FirstRule(RULES, y);
    OnShapesIfAnyCommute(curve, rx, ry, slide, kx, ky);
  }

  // ----- findings that do not interfere commute

  lemma {:induction false} PeacefulMeans(x: FindingInfo, y: FindingInfo, slides: seq<Slide>)
    requires !Interfere(x, y) && Reaches(x, slides) && Reaches(y, slides) && x.slideNum == y.slideNum
    ensures (TextOnly(x) && TextOnly(y)) || FirstRule(RULES, x).None? || FirstRule(RULES, y).None?
  {
    var rx, ry := FirstRule(RULES, x), FirstRule(RULES, y);
    if rx.Some? && ry.Some? && !(TextOnly(x) && TextOnly(y)) {
      var n := x.slideNum.value;
      FirstRuleIsIts(x, rx.value);
      FirstRuleIsIts(y, ry.value);
      assert Asks(x, Ask(n, rx.value)) && Asks(y, Ask(n, ry.value)) && Clash(Ask(n, rx.value), Ask(n, ry.value));
    }
  }

  lemma {:induction false} SameSlideCommutes(curve: Curve, width: Extent, height: Extent, slide: Slide, x: FindingInfo, y: FindingInfo)
    requires x.bbox.Some? && y.bbox.Some?
    requires (TextOnly(x) && TextOnly(y)) || FirstRule(RULES, x).None? || FirstRule(RULES, y).None?
    ensures var ex, ey := EffectOf(curve, width, height, slide, x), EffectOf(curve, width, height, slide, y);
      var exy, eyx := EffectOf(curve, width, height, ex.slide, y), EffectOf(curve, width, height, ey.slide, x);
      exy.slide == eyx.slide && SameTouched(ex, exy, ey, eyx)
  {
    if TextOnly(x) && TextOnly(y) {
      TextEffectsCommute(curve, width, height, slide, x, y);
    }
  }

  lemma {:induction false} SameIndexTwice(state: State, n: int, ex: Effect, exy: Effect, ey: Effect, eyx: Effect)
    requires 1 <= n <= |state.slides|
    requires exy.slide == eyx.slide && SameTouched(ex, exy, ey, eyx)
    ensures WithEffect(WithEffect(state, n, ex), n, exy) == WithEffect(WithEffect(state, n, ey), n, eyx)
  {
    assert state.slides[n - 1 := ex.slide][n - 1 := exy.slide] == state.slides[n - 1 := ey.slide][n - 1 := eyx.slide];
    assert Keys(n, ex.touched) + Keys(n, exy.touched) == Keys(n, ey.touched) + Keys(n, eyx.touched);
    UnionAssociates(state.touched, Keys(n, ex.touched), Keys(n, exy.touched));
    UnionAssociates(state.touched, Keys(n, ey.touched), Keys(n, eyx.touched));
  }

  lemma {:induction false} UnionAssociates(a: set<Key>, b: set<Key>, c: set<Key>)
    ensures a + b + c == a + (b + c)
  {
  }

  lemma {:induction false} OtherIndices(state: State, m: int, one: Effect, n: int, other: Effect)
    requires 1 <= m <= |state.slides| && 1 <= n <= |state.slides| && m != n
    ensures WithEffect(WithEffect(state, m, one), n, other) == WithEffect(WithEffect(state, n, other), m, one)
  {
    assert state.slides[m - 1 := one.slide][n - 1 := other.slide] == state.slides[n - 1 := other.slide][m - 1 := one.slide];
  }

  lemma {:induction false} SameSlideStepsCommute(curve: Curve, width: Extent, height: Extent, state: State, x: FindingInfo, y: FindingInfo)
    requires !Interfere(x, y) && Reaches(x, state.slides) && Reaches(y, state.slides) && x.slideNum == y.slideNum
    ensures After(curve, width, height, After(curve, width, height, state, x), y)
         == After(curve, width, height, After(curve, width, height, state, y), x)
  {
    var n, slide := x.slideNum.value, state.slides[x.slideNum.value - 1];
    var ex, ey := EffectOf(curve, width, height, slide, x), EffectOf(curve, width, height, slide, y);
    AfterIsEffect(curve, width, height, state, x);
    AfterIsEffect(curve, width, height, state, y);
    AfterIsEffect(curve, width, height, WithEffect(state, n, ex), y);
    AfterIsEffect(curve, width, height, WithEffect(state, n, ey), x);
    PeacefulMeans(x, y, state.slides);
    SameSlideCommutes(curve, width, height, slide, x, y);
    SameIndexTwice(state, n, ex, EffectOf(curve, width, height, ex.slide, y), ey, EffectOf(curve, width, height, ey.slide, x));
  }

  /** What a finding does to its slide, whatever happened to another one. */
  lemma {:induction false} EffectHere(curve: Curve, width: Extent, height: Extent, state: State, x: FindingInfo, n: int, other: Effect)
    returns (effect: Effect)
    requires Reaches(x, state.slides) && 1 <= n <= |state.slides| && x.slideNum != Some(n)
    ensures effect == EffectOf(curve, width, height, state.slides[x.slideNum.value - 1], x)
    ensures After(curve, width, height, state, x) == WithEffect(state, x.slideNum.value, effect)
    ensures After(curve, width, height, WithEffect(state, n, other), x) ==
            WithEffect(WithEffect(state, n, other), x.slideNum.value, effect)
  {
    effect := EffectOf(curve, width, height, state.slides[x.slideNum.value - 1], x);
    var now := WithEffect(state, n, other);
    assert now.slides[x.slideNum.value - 1] == state.slides[x.slideNum.value - 1];
    AfterIsEffect(curve, width, height, state, x);
    AfterIsEffect(curve, width, height, now, x);
  }

  /** Two findings on different slides. */
  lemma {:induction false} OtherSlideStepsCommute(curve: Curve, width: Extent, height: Extent, state: State, x: FindingInfo, y: FindingInfo,
                                                  ex: Effect, ey: Effect)
    requires Reaches(x, state.slides) && Reaches(y, state.slides) && x.slideNum != y.slideNum
    requires ex == EffectOf(curve, width, height, state.slides[x.slideNum.value - 1], x)
    requires ey == EffectOf(curve, width, height, state.slides[y.slideNum.value - 1], y)
    ensures After(curve, width, height, After(curve, width, height, state, x), y)
         == WithEffect(WithEffect(state, y.slideNum.value, ey), x.slideNum.value, ex)
  {
    var m, n := x.slideNum.value, y.slideNum.value;
    var ex' := EffectHere(curve, width, height, state, x, n, ey);
    var ey' := EffectHere(curve, width, height, state, y, m, ex);
    OtherIndices(state, m, ex, n, ey);
  }

  lemma {:induction false} StepsCommute(curve: Curve, width: Extent, height: Extent, state: State, x: FindingInfo, y: FindingInfo)
    requires !Interfere(x, y)
    ensures After(curve, width, height, After(curve, width, height, state, x), y)
         == After(curve, width, height, After(curve, width, height, state, y), x)
  {
    if !Reaches(x, state.slides) {
      Unreached(curve, width, height, state, x);
      StepKeeps(curve, width, height, state, y);
      Unreached(curve, width, height, After(curve, width, height, state, y), x);
    } else if !Reaches(y, state.slides) {
      Unreached(curve, width, height, state, y);
      StepKeeps(curve, width, height, state, x);
      Unreached(curve, width, height, After(curve, width, height, state, x), y);
    } else if x.slideNum == y.slideNum {
      SameSlideStepsCommute(curve, width, height, state, x, y);
    } else {
      var ex := EffectOf(curve, width, height, state.slides[x.slideNum.value - 1], x);
      var ey := EffectOf(curve, width, height, state.slides[y.slideNum.value - 1], y);
      OtherSlideStepsCommute(curve, width, height, state, x, y, ex, ey);
      OtherSlideStepsCommute(curve, width, height, state, y, x, ey, ex);
      OtherIndices(state, x.slideNum.value, ex, y.slideNum.value, ey);
    }
  }

  lemma {:induction false} Unreached(curve: Curve, width: Extent, height: Extent, state: State, info: FindingInfo)
    requires !Reaches(info, state.slides)
    ensures After(curve, width, height, state, info) == state
  {
    AfterIsEffect(curve, width, height, state, info);
  }

  // ----- any order of a peaceful list

  function Final(curve: Curve, deck: Deck, infos: seq<FindingInfo>): State {
    Replay(curve, deck, infos).state
  }

  lemma {:induction false} FinalSnoc(curve: Curve, deck: Deck, infos: seq<FindingInfo>, info: FindingInfo)
    ensures Final(curve, deck, infos + [info]) == After(curve, deck.width, deck.height, Final(curve, deck, infos), info)
  {
    ReplaySnoc(curve, deck, infos, info);
  }

  lemma {:induction false} MoveToEnd(curve: Curve, deck: Deck, a: seq<FindingInfo>, x: FindingInfo, b: seq<FindingInfo>)
    requires forall i :: 0 <= i < |b| && b[i] != x ==> !Interfere(x, b[i])
    ensures Final(curve, deck, a + [x] + b) == Final(curve, deck, a + b + [x])
    decreases |b|
  {
    if b == [] {
      assert a + [x] + b == a + b + [x];
    } else {
      var front, y := b[..|b| - 1], b[|b| - 1];
      var base := Final(curve, deck, a + front);
      MoveToEnd(curve, deck, a, x, front);
      assert a + [x] + b == (a + [x] + front) + [y] && a + b == (a + front) + [y];
      FinalSnoc(curve, deck, a + [x] + front, y);
      FinalSnoc(curve, deck, a + front, x);
      FinalSnoc(curve, deck, a + b, x);
      FinalSnoc(curve, deck, a + front, y);
      if y != x {
        StepsCommute(curve, deck.width, deck.height, base, x, y);
      }
    }
  }

  lemma {:induction false} PeacefulPart(infos: seq<FindingInfo>, part: seq<FindingInfo>)
    requires Peaceful(infos) && forall x :: x in part ==> x in infos
    ensures Peaceful(part)
  {
    forall i, j | 0 <= i < |part| && 0 <= j < |part| && part[i] != part[j]
      ensures !Interfere(part[i], part[j])
    {
      assert part[i] in infos && part[j] in infos;
    }
  }

  /** Taking the last element of one list out of a permutation of it. */
  lemma {:induction false} TakeOut<T>(front: seq<T>, x: T, other: seq<T>) returns (a: seq<T>, b: seq<T>)
    requires multiset(front + [x]) == multiset(other)
    ensures other == a + [x] + b && multiset(front) == multiset(a + b)
  {
    assert (front + [x])[|front|] == x;
    assert x in multiset(front + [x]);
    var j :| 0 <= j < |other| && other[j] == x;
    a, b := other[..j], other[j + 1..];
    assert other == a + [x] + b;
    assert multiset(front + [x]) == multiset(front) + multiset{x};
    assert multiset(a + [x] + b) == multiset(a) + multiset{x} + multiset(b);
    assert multiset(a + b) == multiset(a) + multiset(b);
    assert multiset(front) == multiset(front + [x]) - multiset{x};
    assert multiset(a + b) == multiset(a + [x] + b) - multiset{x};
  }

  lemma {:induction false} PermutedFinal(curve: Curve, deck: Deck, one: seq<FindingInfo>, other: seq<FindingInfo>)
    requires Peaceful(one) && multiset(one) == multiset(other)
    ensures Final(curve, deck, one) == Final(curve, deck, other)
    decreases |one|
  {
    if one == [] {
      assert |other| == |multiset(other)| == |multiset(one)| == 0;
    } else {
      var front, x := one[..|one| - 1], one[|one| - 1];
      assert one == front + [x];
      var a, b := TakeOut(front, x, other);
      forall i | 0 <= i < |b| && b[i] != x
        ensures !Interfere(x, b[i])
      {
        assert b[i] in multiset(other);
        assert b[i] in one && x == one[|one| - 1];
      }
      MoveToEnd(curve, deck, a, x, b);
      PeacefulPart(one, front);
      PermutedFinal(curve, deck, front, a + b);
      FinalSnoc(curve, deck, front, x);
      FinalSnoc(curve, deck, a + b, x);
    }
  }

  /** Whether a fix holds, and what it gives, is decided by the slides and touched shapes it ends with. */
  lemma {:induction false} FinalDecides(curve: Curve, deck: Deck, one: seq<FindingInfo>, other: seq<FindingInfo>)
    requires Final(curve, deck, one) == Final(curve, deck, other)
    ensures Fixed(curve, deck, one).deck == Fixed(curve, deck, other).deck
    ensures Fixed(curve, deck, one).rolledBack == Fixed(curve, deck, other).rolledBack
  {
  }

  /** When no slide has an alignment next to another finding, every order of the findings gives the same deck and
      the same verdict of the control check. */
  lemma {:induction false} OrderIrrelevant(curve: Curve, deck: Deck, one: seq<FindingInfo>, other: seq<FindingInfo>)
    requires Peaceful(one) && multiset(one) == multiset(other)
    ensures Fixed(curve, deck, one).deck == Fixed(curve, deck, other).deck
    ensures Fixed(curve, deck, one).rolledBack == Fixed(curve, deck, other).rolledBack
  {
    PermutedFinal(curve, deck, one, other);
    FinalDecides(curve, deck, one, other);
  }
}
