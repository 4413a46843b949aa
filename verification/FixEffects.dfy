/** What one finding does to the deck and what its log entry says, rule by rule and in the rules' own terms. */
module FixEffects {
  import opened Wrappers
  import opened Geometry
  import opened Slides
  import opened FixRules
  import opened PptxFixer
  import opened FixProperties

  /** Some run of the shape satisfies `p`. */
  ghost predicate HasRunWhere(shape: Shape, p: Run -> bool) {
    shape.text.Some? &&
    exists i, j :: 0 <= i < |shape.text.value| && 0 <= j < |shape.text.value[i]| && p(shape.text.value[i][j])
  }

  predicate IsTooSmall(run: Run) { run.size.Some? && run.size.value < 14 * 12700 }

  function Fill(shape: Shape): Rgb { if shape.fill.Some? then shape.fill.value else Rgb(255, 255, 255) }

  /** Below WCAG's minimum for text on the shape's fill, white when it has none. */
  predicate IsTooFaint(curve: Curve, shape: Shape, run: Run) {
    run.color.Some? && ContrastRatio(curve, run.color.value, Fill(shape)) < 4.5
  }

  function Extreme(curve: Curve, shape: Shape): Rgb {
    if RelativeLuminance(curve, Fill(shape)) > 0.5 then Rgb(0, 0, 0) else Rgb(255, 255, 255)
  }

  /** What each rule makes of shape `k`, and when it reports a change. */
  ghost predicate DoesIts(curve: Curve, rule: RuleName, slide: Slide, k: nat, after: Shape, applied: bool)
    requires k < |slide|
  {
    match rule
    case MinFontSize =>
      && OnlyRunsChange(slide[k], after, (run: Run) => if IsTooSmall(run) then Run(Some(14 * 12700), run.color) else run)
      && (applied <==> HasRunWhere(slide[k], IsTooSmall))
    case Contrast =>
      && OnlyRunsChange(slide[k], after, (run: Run) =>
           if IsTooFaint(curve, slide[k], run) then Run(run.size, Some(Extreme(curve, slide[k]))) else run)
      && (applied <==> HasRunWhere(slide[k], (run: Run) => IsTooFaint(curve, slide[k], run)))
    case Alignment =>
      && after == slide[k].(left := after.left, top := after.top)
      && LandsOn(Lefts(slide), k, after.left) && LandsOn(Tops(slide), k, after.top)
      && (applied <==> SomeNear(Lefts(slide), k) || SomeNear(Tops(slide), k))
  }

  lemma {:induction false} SameRuns(before: Shape, after: Shape, f: Run -> Run, g: Run -> Run)
    requires OnlyRunsChange(before, after, f) && forall run: Run :: f(run) == g(run)
    ensures OnlyRunsChange(before, after, g)
  {
  }

  lemma {:induction false} SomeRunIs(shape: Shape, p: Run -> bool, q: Run -> bool)
    requires shape.text.Some? && forall run: Run :: p(run) == q(run)
    ensures SomeRun(shape.text.value, p) <==> HasRunWhere(shape, q)
  {
    var text := shape.text.value;
    if SomeRun(text, p) {
      var i, j :| 0 <= i < |text| && 0 <= j < |text[i]| && p(text[i][j]);
      assert q(text[i][j]);
    }
    if HasRunWhere(shape, q) {
      var i, j :| 0 <= i < |text| && 0 <= j < |text[i]| && q(text[i][j]);
      assert p(text[i][j]);
    }
  }

  lemma {:induction false} FontsDoTheirs(curve: Curve, slide: Slide, k: nat)
    requires k < |slide|
    ensures DoesIts(curve, MinFontSize, slide, k, RaiseFonts(slide[k]).shape, RaiseFonts(slide[k]).result.applied)
  {
    RaiseFontsSafe(slide[k]);
    if slide[k].text.Some? {
      SomeRunIs(slide[k], IsSmall, IsTooSmall);
    }
  }

  lemma {:induction false} ContrastDoesIts(curve: Curve, slide: Slide, k: nat)
    requires k < |slide|
    ensures DoesIts(curve, Contrast, slide, k, RecolorText(curve, slide[k]).shape, RecolorText(curve, slide[k]).result.applied)
  {
    RecolorTextSafe(curve, slide[k]);
    var background := Background(slide[k]);
    assert background == Fill(slide[k]);
    if slide[k].text.Some? {
      SomeRunIs(slide[k], run => IsFaint(curve, background, run), (run: Run) => IsTooFaint(curve, slide[k], run));
    }
  }

  lemma {:induction false} RuleDoesIts(curve: Curve, rule: RuleName, slide: Slide, k: nat)
    requires k < |slide|
    ensures DoesIts(curve, rule, slide, k, RuleEdit(curve, rule, slide, k).shape, RuleEdit(curve, rule, slide, k).result.applied)
  {
    match rule {
      case MinFontSize => FontsDoTheirs(curve, slide, k);
      case Contrast => ContrastDoesIts(curve, slide, k);
      case Alignment => AlignLands(slide, k);
    }
  }

  /** A deck that differs in one shape at most. */
  ghost predicate OnlyShapeDiffers(before: seq<Slide>, after: seq<Slide>, i: nat, k: nat) {
    && |before| == |after| && (forall s :: 0 <= s < |before| ==> |before[s]| == |after[s]|)
    && (forall s, t :: 0 <= s < |before| && 0 <= t < |before[s]| && !(s == i && t == k) ==> after[s][t] == before[s][t])
  }

  /** One finding on a deck, given the shape and the rule it picks: when the fix holds, that shape alone can differ,
      it is what the rule makes of it, and the entry reads `applied` exactly when the rule found something. */
  lemma {:induction false} OneFindingDoes(curve: Curve, original: Deck, info: FindingInfo, k: nat, rule: RuleName)
    requires info.autoFixable && info.slideNum.Some? && 1 <= info.slideNum.value <= |original.slides| && info.bbox.Some?
    requires IsTarget(original.slides[info.slideNum.value - 1], info.bbox.value, original.width, original.height, k)
    requires IsItsRule(info, rule)
    ensures var outcome, si := Fixed(curve, original, [info]), info.slideNum.value - 1;
      !outcome.rolledBack ==>
        && OnlyShapeDiffers(original.slides, outcome.deck.slides, si, k)
        && |outcome.log| == 1 && outcome.log[0].findingId == info.id && outcome.log[0].rule == Some(rule)
        && DoesIts(curve, rule, original.slides[si], k, outcome.deck.slides[si][k], outcome.log[0].status.Applied?)
  {
    RuleDoesIts(curve, rule, original.slides[info.slideNum.value - 1], k);
    OneFindingKeptOffSlideIff(curve, original, info, k, rule);
    OneEntry(curve, original, info, k, rule);
  }

  lemma {:induction false} OneEntry(curve: Curve, original: Deck, info: FindingInfo, k: nat, rule: RuleName)
    requires info.autoFixable && info.slideNum.Some? && 1 <= info.slideNum.value <= |original.slides| && info.bbox.Some?
    requires IsTarget(original.slides[info.slideNum.value - 1], info.bbox.value, original.width, original.height, k)
    requires IsItsRule(info, rule)
    ensures var log := Replay(curve, original, [info]).log;
      && |log| == 1 && log[0].findingId == info.id && log[0].rule == Some(rule)
      && (log[0].status.Applied? <==> RuleEdit(curve, rule, original.slides[info.slideNum.value - 1], k).result.applied)
  {
    ReplaySnoc(curve, original, [], info);
    assert [] + [info] == [info];
    EntryTells(curve, original.width, original.height, State(original.slides, {}), info, k, rule);
  }

  // ----- the log entry

  /** A finding with a shape and a rule: the entry names the rule; it is skipped for the rule's own reason, and for want
      of text when a text rule met a shape without any. */
  lemma {:induction false} EntryTells(curve: Curve, width: Extent, height: Extent, state: State, info: FindingInfo, k: nat, rule: RuleName)
    requires info.autoFixable && info.slideNum.Some? && 1 <= info.slideNum.value <= |state.slides| && info.bbox.Some?
    requires IsTarget(state.slides[info.slideNum.value - 1], info.bbox.value, width, height, k) && IsItsRule(info, rule)
    ensures var slide := state.slides[info.slideNum.value - 1];
      var applied := RuleEdit(curve, rule, slide, k).result.applied;
      ApplyOne(curve, width, height, state, info).entry == Some(
        if applied then LogEntry(info.id, Some(rule), Status.Applied, NoReason)
        else LogEntry(info.id, Some(rule), Skipped,
                      if rule.Alignment? then NoNearSibling
                      else if slide[k].text.None? then NoTextFrame
                      else if rule.MinFontSize? then NoSmallRun
                      else NoLowContrastRun))
  {
    var slide := state.slides[info.slideNum.value - 1];
    var best := BestMatch(slide, info.bbox.value, width, height, |slide|);
    assert best == Some(k);
    FirstRuleIsIts(info, rule);
  }

  /** A finding without them: no entry for one that is not auto-fixable; otherwise skipped, without a rule, for the
      first of these that is missing: a slide number and a box, such a slide, a shape on it, a rule. */
  lemma {:induction false} SkippedEntryTells(curve: Curve, width: Extent, height: Extent, state: State, info: FindingInfo)
    ensures var entry := ApplyOne(curve, width, height, state, info).entry;
      if !info.autoFixable then entry.None?
      else if info.slideNum.None? || info.bbox.None? then entry == Some(LogEntry(info.id, None, Skipped, NoSlideOrBox))
      else if !(1 <= info.slideNum.value <= |state.slides|) then entry == Some(LogEntry(info.id, None, Skipped, SlideOutOfRange))
      else if !HasTarget(state.slides[info.slideNum.value - 1], info.bbox.value, width, height) then
        entry == Some(LogEntry(info.id, None, Skipped, NoMatchingShape))
      else (forall rule :: !IsItsRule(info, rule)) ==> entry == Some(LogEntry(info.id, None, Skipped, NoApplicableRule))
  {
    if info.autoFixable && info.slideNum.Some? && info.bbox.Some? && 1 <= info.slideNum.value <= |state.slides| {
      var slide := state.slides[info.slideNum.value - 1];
      var best := BestMatch(slide, info.bbox.value, width, height, |slide|);
      if best.Some? {
        assert IsTarget(slide, info.bbox.value, width, height, best.value);
      } else if k :| IsTarget(slide, info.bbox.value, width, height, k) {
        assert false;
      }
      if FirstRule(RULES, info).Some? {
        FirstRuleIsIts(info, FirstRule(RULES, info).value);
      }
    }
  }
}
