/** What text findings, the ones that ask for larger fonts or more contrast, leave of the shapes they aim at, and
    which of them take effect when several aim at one shape. */
module FixText {
  import opened Wrappers
  import opened Geometry
  import opened Slides
  import opened FixRules
  import opened PptxFixer
  import opened FixProperties
  import opened FixOrder

  /** The rule would still find something to change. */
  predicate Needs(curve: Curve, rule: RuleName, shape: Shape)
    requires !rule.Alignment?
  {
    TextEdit(curve, rule, shape).result.applied
  }

  /** Contrast on a background where the rule's own colour stays below the minimum. */
  predicate NeverSettles(curve: Curve, rule: RuleName, shape: Shape) {
    rule.Contrast? && !Restorable(curve, Background(shape))
  }

  /** Once edited a shape needs the rule no more, unless that is what the rule cannot give; the other rule changes
      neither the need nor the background. */
  lemma {:induction false} NeedAfterEdit(curve: Curve, rule: RuleName, other: RuleName, shape: Shape)
    requires !rule.Alignment? && !other.Alignment?
    ensures var after := TextEdit(curve, other, shape).shape;
      && Background(after) == Background(shape)
      && (Needs(curve, rule, after) <==>
            Needs(curve, rule, shape) && (rule == other ==> NeverSettles(curve, rule, shape)))
  {
    TextEditsCommute(curve, shape);
    if rule == other {
      if rule.MinFontSize? {
        RaiseFontsReaches(shape);
      } else if shape.text.Some? {
        RecolorReachesIff(curve, shape);
      }
    }
  }

  /** The finding asks for this rule on shape `k` of slide `n`. */
  ghost predicate AimsAt(deck: Deck, info: FindingInfo, n: int, k: nat, rule: RuleName) {
    && Reaches(info, deck.slides) && info.slideNum == Some(n) && FirstRule(RULES, info) == Some(rule)
    && BestMatch(deck.slides[n - 1], info.bbox.value, deck.width, deck.height, |deck.slides[n - 1]|) == Some(k)
  }

  ghost predicate SomeAims(deck: Deck, infos: seq<FindingInfo>, n: int, k: nat, rule: RuleName) {
    exists i :: 0 <= i < |infos| && AimsAt(deck, infos[i], n, k, rule)
  }

  /** No finding of slide `n` asks for an alignment. */
  ghost predicate TextOnSlide(infos: seq<FindingInfo>, n: int) {
    forall i :: 0 <= i < |infos| && infos[i].slideNum == Some(n) ==> TextOnly(infos[i])
  }

  /** Text findings leave the frames of their slide alone, so each keeps the target it has on the original. */
  ghost predicate FramesKept(deck: Deck, slides: seq<Slide>, n: int) {
    1 <= n <= |deck.slides| == |slides| && SameFrames(deck.slides[n - 1], slides[n - 1])
  }

  lemma {:induction false} SameFramesTransitive(a: Slide, b: Slide, c: Slide)
    requires SameFrames(a, b) && SameFrames(b, c)
    ensures SameFrames(a, c)
  {
    forall k | 0 <= k < |a|
      ensures SameFrame(a[k], c[k])
    {
      assert SameFrame(a[k], b[k]) && SameFrame(b[k], c[k]);
    }
  }

  /** What one more text finding makes of its slide: which shape it edits is read off the original. */
  function TextSlide(curve: Curve, deck: Deck, slide: Slide, info: FindingInfo): (edited: Slide)
    requires TextOnly(info) && Reaches(info, deck.slides) && |slide| == |deck.slides[info.slideNum.value - 1]|
    ensures |edited| == |slide|
  {
    var frames := deck.slides[info.slideNum.value - 1];
    OnShapeIfAny(curve, FirstRule(RULES, info), slide, BestMatch(frames, info.bbox.value, deck.width, deck.height, |frames|)).slide
  }

  lemma {:induction false} TextSlideIs(curve: Curve, deck: Deck, slide: Slide, info: FindingInfo)
    requires TextOnly(info) && Reaches(info, deck.slides) && SameFrames(deck.slides[info.slideNum.value - 1], slide)
    ensures EffectOf(curve, deck.width, deck.height, slide, info).slide == TextSlide(curve, deck, slide, info)
    ensures SameFrames(deck.slides[info.slideNum.value - 1], TextSlide(curve, deck, slide, info))
  {
    var frames := deck.slides[info.slideNum.value - 1];
    TextEffectKeepsFrames(curve, deck.width, deck.height, slide, info);
    TextEffect(curve, deck.width, deck.height, frames, slide, info);
    SameFramesTransitive(frames, slide, EffectOf(curve, deck.width, deck.height, slide, info).slide);
  }

  lemma {:induction false} AfterText(curve: Curve, deck: Deck, state: State, info: FindingInfo, n: int) returns (effect: Effect)
    requires TextOnly(info) && Reaches(info, deck.slides) && info.slideNum == Some(n) && FramesKept(deck, state.slides, n)
    ensures After(curve, deck.width, deck.height, state, info) == WithEffect(state, n, effect)
    ensures effect.slide == TextSlide(curve, deck, state.slides[n - 1], info)
    ensures SameFrames(deck.slides[n - 1], effect.slide)
  {
    effect := EffectOf(curve, deck.width, deck.height, state.slides[n - 1], info);
    AfterIsEffect(curve, deck.width, deck.height, state, info);
    TextSlideIs(curve, deck, state.slides[n - 1], info);
  }

  /** A finding of another slide, whatever it asks for. */
  lemma {:induction false} AfterElsewhere(curve: Curve, width: Extent, height: Extent, state: State, info: FindingInfo, n: int)
    requires 1 <= n <= |state.slides| && !(Reaches(info, state.slides) && info.slideNum == Some(n))
    ensures var slides := After(curve, width, height, state, info).slides;
      |slides| == |state.slides| && slides[n - 1] == state.slides[n - 1]
  {
    AfterIsEffect(curve, width, height, state, info);
  }

  /** What one more finding makes of slide `n`. */
  function NextSlide(curve: Curve, deck: Deck, slide: Slide, info: FindingInfo, n: int): (edited: Slide)
    requires 1 <= n <= |deck.slides| && |slide| == |deck.slides[n - 1]| && (info.slideNum == Some(n) ==> TextOnly(info))
    ensures |edited| == |slide|
  {
    if Reaches(info, deck.slides) && info.slideNum == Some(n) then TextSlide(curve, deck, slide, info) else slide
  }

  lemma {:induction false} TextStep(curve: Curve, deck: Deck, state: State, info: FindingInfo, n: int)
    requires FramesKept(deck, state.slides, n) && (info.slideNum == Some(n) ==> TextOnly(info))
    ensures var slides := After(curve, deck.width, deck.height, state, info).slides;
      FramesKept(deck, slides, n) && slides[n - 1] == NextSlide(curve, deck, state.slides[n - 1], info, n)
  {
    if Reaches(info, deck.slides) && info.slideNum == Some(n) {
      var effect := AfterText(curve, deck, state, info, n);
    } else {
      AfterElsewhere(curve, deck.width, deck.height, state, info, n);
    }
  }

  lemma {:induction false} TextKeepsFrames(curve: Curve, deck: Deck, infos: seq<FindingInfo>, n: int)
    requires TextOnSlide(infos, n) && 1 <= n <= |deck.slides|
    ensures FramesKept(deck, Final(curve, deck, infos).slides, n)
  {
    if infos != [] {
      var front, last := infos[..|infos| - 1], infos[|infos| - 1];
      TextKeepsFrames(curve, deck, front, n);
      assert infos == front + [last];
      FinalSnoc(curve, deck, front, last);
      TextStep(curve, deck, Final(curve, deck, front), last, n);
    }
  }

  /** How a need and a background may change over one finding. */
  ghost predicate NeedMoves(curve: Curve, rule: RuleName, before: Shape, after: Shape, aimed: bool)
    requires !rule.Alignment?
  {
    && Background(after) == Background(before)
    && (Needs(curve, rule, after) <==> Needs(curve, rule, before) && (aimed ==> NeverSettles(curve, rule, before)))
  }

  lemma {:induction false} NeedAfterOnShape(curve: Curve, its: Option<RuleName>, slide: Slide, best: Option<nat>, k: nat, rule: RuleName)
    requires its != Some(Alignment) && (best.Some? ==> best.value < |slide|) && !rule.Alignment? && k < |slide|
    ensures NeedMoves(curve, rule, slide[k], OnShapeIfAny(curve, its, slide, best).slide[k], best == Some(k) && its == Some(rule))
  {
    if best == Some(k) && its.Some? {
      NeedAfterEdit(curve, rule, its.value, slide[k]);
    }
  }

  /** What one text finding does to the need of one shape. */
  lemma {:induction false} NeedAfterSlide(curve: Curve, deck: Deck, slide: Slide, info: FindingInfo, k: nat, rule: RuleName, edited: Slide)
    requires TextOnly(info) && Reaches(info, deck.slides) && |slide| == |deck.slides[info.slideNum.value - 1]|
    requires !rule.Alignment? && k < |slide| && edited == TextSlide(curve, deck, slide, info)
    ensures NeedMoves(curve, rule, slide[k], edited[k], AimsAt(deck, info, info.slideNum.value, k, rule))
  {
    var best, its := TargetAndRule(curve, deck, slide, info, k, rule, edited);
    NeedAfterOnShape(curve, its, slide, best, k, rule);
  }

  lemma {:induction false} TargetAndRule(curve: Curve, deck: Deck, slide: Slide, info: FindingInfo, k: nat, rule: RuleName, edited: Slide)
    returns (best: Option<nat>, its: Option<RuleName>)
    requires TextOnly(info) && Reaches(info, deck.slides) && |slide| == |deck.slides[info.slideNum.value - 1]|
    requires edited == TextSlide(curve, deck, slide, info)
    ensures its != Some(Alignment) && (best.Some? ==> best.value < |slide|)
    ensures edited == OnShapeIfAny(curve, its, slide, best).slide
    ensures AimsAt(deck, info, info.slideNum.value, k, rule) <==> best == Some(k) && its == Some(rule)
  {
    var frames := deck.slides[info.slideNum.value - 1];
    best, its := BestMatch(frames, info.bbox.value, deck.width, deck.height, |frames|), FirstRule(RULES, info);
  }

  lemma {:induction false} NeedUnmoved(curve: Curve, rule: RuleName, shape: Shape)
    requires !rule.Alignment?
    ensures NeedMoves(curve, rule, shape, shape, false)
  {
  }

  lemma {:induction false} NeedAfterStep(curve: Curve, deck: Deck, slide: Slide, info: FindingInfo, n: int, k: nat, rule: RuleName)
    requires 1 <= n <= |deck.slides| && k < |slide| == |deck.slides[n - 1]| && !rule.Alignment?
    requires info.slideNum == Some(n) ==> TextOnly(info)
    ensures NeedMoves(curve, rule, slide[k], NextSlide(curve, deck, slide, info, n)[k], AimsAt(deck, info, n, k, rule))
  {
    if Reaches(info, deck.slides) && info.slideNum == Some(n) {
      NeedAfterSlide(curve, deck, slide, info, k, rule, NextSlide(curve, deck, slide, info, n));
    } else {
      NeedUnmoved(curve, rule, slide[k]);
    }
  }

  lemma {:induction false} SomeAimsSnoc(deck: Deck, front: seq<FindingInfo>, last: FindingInfo, n: int, k: nat, rule: RuleName)
    ensures SomeAims(deck, front + [last], n, k, rule) <==> SomeAims(deck, front, n, k, rule) || AimsAt(deck, last, n, k, rule)
  {
    var infos := front + [last];
    assert infos[|front|] == last && forall i :: 0 <= i < |front| ==> infos[i] == front[i];
  }

  /** Two changes of a need in a row. */
  lemma {:induction false} NeedMovesOn(curve: Curve, rule: RuleName, a: Shape, b: Shape, c: Shape, first: bool, second: bool)
    requires !rule.Alignment? && NeedMoves(curve, rule, a, b, first) && NeedMoves(curve, rule, b, c, second)
    ensures NeedMoves(curve, rule, a, c, first || second)
  {
  }

  /** After any list in which no finding of the slide asks for an alignment, a shape needs a rule exactly when it did
      before and either no finding asked for that rule on it or the rule cannot settle it. */
  lemma {:induction false} NeedAfterAll(curve: Curve, deck: Deck, infos: seq<FindingInfo>, n: int, k: nat, rule: RuleName)
    requires TextOnSlide(infos, n) && !rule.Alignment? && 1 <= n <= |deck.slides| && k < |deck.slides[n - 1]|
    ensures var slides := Final(curve, deck, infos).slides;
      && |slides| == |deck.slides| && |slides[n - 1]| == |deck.slides[n - 1]|
      && NeedMoves(curve, rule, deck.slides[n - 1][k], slides[n - 1][k], SomeAims(deck, infos, n, k, rule))
  {
    if infos == [] {
      NeedUnmoved(curve, rule, deck.slides[n - 1][k]);
    } else {
      var front, last := infos[..|infos| - 1], infos[|infos| - 1];
      var before := Final(curve, deck, front);
      assert infos == front + [last];
      NeedAfterAll(curve, deck, front, n, k, rule);
      TextKeepsFrames(curve, deck, front, n);
      FinalSnoc(curve, deck, front, last);
      TextStep(curve, deck, before, last, n);
      NeedAfterStep(curve, deck, before.slides[n - 1], last, n, k, rule);
      SomeAimsSnoc(deck, front, last, n, k, rule);
      NeedMovesOn(curve, rule, deck.slides[n - 1][k], before.slides[n - 1][k], Final(curve, deck, infos).slides[n - 1][k],
                  SomeAims(deck, front, n, k, rule), AimsAt(deck, last, n, k, rule));
    }
  }

  lemma {:induction false} AppliesAt(curve: Curve, width: Extent, height: Extent, state: State, info: FindingInfo,
                                     slide: Slide, k: nat, rule: RuleName)
    requires Reaches(info, state.slides) && slide == state.slides[info.slideNum.value - 1] && k < |slide|
    requires BestMatch(slide, info.bbox.value, width, height, |slide|) == Some(k) && FirstRule(RULES, info) == Some(rule)
    ensures ApplyOne(curve, width, height, state, info).Applied() <==> RuleEdit(curve, rule, slide, k).result.applied
  {
  }

  /** On a slide with the original frames a text finding applies exactly when its target needs its rule. */
  lemma {:induction false} TextAppliesHere(curve: Curve, deck: Deck, state: State, info: FindingInfo, n: int, k: nat, rule: RuleName)
    requires TextOnly(info) && AimsAt(deck, info, n, k, rule) && FramesKept(deck, state.slides, n)
    requires k < |deck.slides[n - 1]| == |state.slides[n - 1]|
    ensures !rule.Alignment?
    ensures ApplyOne(curve, deck.width, deck.height, state, info).Applied() <==> Needs(curve, rule, state.slides[n - 1][k])
  {
    SameFramesMatch(deck.slides[n - 1], state.slides[n - 1], info.bbox.value, deck.width, deck.height, |deck.slides[n - 1]|);
    AppliesAt(curve, deck.width, deck.height, state, info, state.slides[n - 1], k, rule);
  }

  /** On a slide without an alignment a finding's entry reads `applied` exactly when its target needed the rule to begin with and no
      earlier finding asked for the same, or the rule cannot settle that shape. */
  lemma {:induction false} TextAppliesIff(curve: Curve, deck: Deck, infos: seq<FindingInfo>, i: nat, n: int, k: nat, rule: RuleName)
    requires TextOnSlide(infos, n) && i < |infos| && AimsAt(deck, infos[i], n, k, rule)
    requires k < |deck.slides[n - 1]|
    ensures !rule.Alignment?
    ensures Replay(curve, deck, infos).applied[i] <==>
            Needs(curve, rule, deck.slides[n - 1][k]) &&
            (SomeAims(deck, infos[..i], n, k, rule) ==> NeverSettles(curve, rule, deck.slides[n - 1][k]))
  {
    AppliedAt(curve, deck, infos, i);
    assert TextOnSlide(infos[..i], n);
    TextKeepsFrames(curve, deck, infos[..i], n);
    NeedAfterAll(curve, deck, infos[..i], n, k, rule);
    TextAppliesHere(curve, deck, Final(curve, deck, infos[..i]), infos[i], n, k, rule);
  }

  lemma {:induction false} AppliedAt(curve: Curve, deck: Deck, infos: seq<FindingInfo>, i: nat)
    requires i < |infos|
    ensures Replay(curve, deck, infos).applied[i] ==
            ApplyOne(curve, deck.width, deck.height, Final(curve, deck, infos[..i]), infos[i]).Applied()
    decreases |infos|
  {
    var front := infos[..|infos| - 1];
    if i < |front| {
      AppliedAt(curve, deck, front, i);
      assert front[..i] == infos[..i];
    } else {
      assert infos[..i] == front;
    }
  }

  /** Of findings that all ask for one rule on one shape that needs it, only the first takes effect. */
  lemma {:induction false} OnlyFirstOfSame(curve: Curve, deck: Deck, infos: seq<FindingInfo>, i: nat, n: int, k: nat, rule: RuleName)
    requires TextOnSlide(infos, n) && i < |infos| && 1 <= n <= |deck.slides| && k < |deck.slides[n - 1]| && !rule.Alignment?
    requires forall j :: 0 <= j < |infos| ==> AimsAt(deck, infos[j], n, k, rule)
    requires Needs(curve, rule, deck.slides[n - 1][k]) && !NeverSettles(curve, rule, deck.slides[n - 1][k])
    ensures Replay(curve, deck, infos).applied[i] <==> i == 0
  {
    TextAppliesIff(curve, deck, infos, i, n, k, rule);
    assert i > 0 ==> AimsAt(deck, infos[..i][0], n, k, rule);
  }

  // ----- text findings and the control check

  ghost predicate AllText(infos: seq<FindingInfo>) {
    forall i :: 0 <= i < |infos| ==> TextOnly(infos[i])
  }

  ghost predicate AllOnSlide(deck: Deck) {
    forall i, k :: 0 <= i < |deck.slides| && 0 <= k < |deck.slides[i]| ==> OnSlide(deck.slides[i][k], deck.width, deck.height)
  }

  /** Only an alignment can make a deck fail the check: text findings alone never roll back when every shape was on
      its slide to begin with. */
  lemma {:induction false} TextNeverRollsBack(curve: Curve, deck: Deck, infos: seq<FindingInfo>)
    requires AllText(infos) && AllOnSlide(deck)
    ensures !Fixed(curve, deck, infos).rolledBack
  {
    RollsBackIffOffSlide(curve, deck, infos);
    var state := Final(curve, deck, infos);
    forall key | key in state.touched
      ensures OnSlide(state.slides[key.0 - 1][FirstWithId(state.slides[key.0 - 1], key.1).value], deck.width, deck.height)
    {
      var si, k := key.0 - 1, FirstWithId(state.slides[key.0 - 1], key.1).value;
      TextKeepsFrames(curve, deck, infos, key.0);
      assert SameFrame(deck.slides[si][k], state.slides[si][k]);
      assert OnSlide(deck.slides[si][k], deck.width, deck.height);
    }
  }
}
