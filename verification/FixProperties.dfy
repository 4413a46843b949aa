/** What one whole fix guarantees about the deck, the log and the flags. */
module FixProperties {
  import opened Wrappers
  import opened Geometry
  import opened Slides
  import opened FixRules
  import opened PptxFixer

  // ----- one finding

  /** Shape `k` is the first of those overlapping the finding's box the most. */
  ghost predicate IsTarget(slide: Slide, bbox: BBox, width: Extent, height: Extent, k: nat) {
    && k < |slide| && MatchScore(slide[k], bbox, width, height) > 0.0
    && (forall i :: 0 <= i < |slide| ==> MatchScore(slide[i], bbox, width, height) <= MatchScore(slide[k], bbox, width, height))
    && (forall i :: 0 <= i < k ==> MatchScore(slide[i], bbox, width, height) < MatchScore(slide[k], bbox, width, height))
  }

  ghost predicate HasTarget(slide: Slide, bbox: BBox, width: Extent, height: Extent) {
    exists k :: IsTarget(slide, bbox, width, height, k)
  }

  /** `rule` is the first of the three, in their fixed order, that applies to the finding. */
  ghost predicate IsItsRule(info: FindingInfo, rule: RuleName) {
    && AppliesTo(rule, info)
    && (rule.Contrast? || rule.Alignment? ==> !AppliesTo(MinFontSize, info))
    && (rule.Alignment? ==> !AppliesTo(Contrast, info))
  }

  lemma {:induction false} FirstRuleIsIts(info: FindingInfo, rule: RuleName)
    ensures FirstRule(RULES, info) == Some(rule) <==> IsItsRule(info, rule)
  {
    assert RULES[0] == MinFontSize && RULES[1..][0] == Contrast && RULES[1..][1..][0] == Alignment;
    assert RULES[1..][1..][1..] == [];
  }

  /** A finding takes effect exactly when it is auto-fixable, points at a slide of the deck and at a shape there,
      and its rule found something to change; then it is that shape that is replaced and recorded. */
  lemma {:induction false} AppliesIff(curve: Curve, width: Extent, height: Extent, state: State, info: FindingInfo, k: nat, rule: RuleName)
    requires info.slideNum.Some? && 1 <= info.slideNum.value <= |state.slides| && info.bbox.Some?
    requires IsTarget(state.slides[info.slideNum.value - 1], info.bbox.value, width, height, k) && IsItsRule(info, rule)
    ensures var step := ApplyOne(curve, width, height, state, info);
      var edit := RuleEdit(curve, rule, state.slides[info.slideNum.value - 1], k);
      && (step.Applied() <==> info.autoFixable && edit.result.applied)
      && (step.Applied() ==>
            && step.state == State(WithShape(state.slides, info.slideNum.value - 1, k, edit.shape),
                                   state.touched + {(info.slideNum.value, state.slides[info.slideNum.value - 1][k].id)})
            && step.entry == Some(LogEntry(info.id, Some(rule), Status.Applied, NoReason)))
  {
    var slide := state.slides[info.slideNum.value - 1];
    var best := BestMatch(slide, info.bbox.value, width, height, |slide|);
    assert best == Some(k);
    FirstRuleIsIts(info, rule);
    RuleEditSafe(curve, rule, slide, k);
  }

  /** Without a slide, a target or a rule nothing takes effect. */
  lemma {:induction false} NeedsSlideTargetAndRule(curve: Curve, width: Extent, height: Extent, state: State, info: FindingInfo)
    requires ApplyOne(curve, width, height, state, info).Applied()
    ensures info.autoFixable && info.slideNum.Some? && 1 <= info.slideNum.value <= |state.slides| && info.bbox.Some?
    ensures HasTarget(state.slides[info.slideNum.value - 1], info.bbox.value, width, height)
    ensures exists rule :: IsItsRule(info, rule)
  {
    var slide := state.slides[info.slideNum.value - 1];
    var best := BestMatch(slide, info.bbox.value, width, height, |slide|);
    assert IsTarget(slide, info.bbox.value, width, height, best.value);
    FirstRuleIsIts(info, FirstRule(RULES, info).value);
  }

  // ----- the log

  /** How many of the first `n` findings are auto-fixable: each of those has one log entry. */
  function Rank(infos: seq<FindingInfo>, n: nat): nat
    requires n <= |infos|
  {
    if n == 0 then 0 else Rank(infos, n - 1) + (if infos[n - 1].autoFixable then 1 else 0)
  }

  lemma {:induction false} RankPrefix(infos: seq<FindingInfo>, info: FindingInfo, n: nat)
    requires n <= |infos|
    ensures Rank(infos + [info], n) == Rank(infos, n)
  {
    if n > 0 {
      RankPrefix(infos, info, n - 1);
    }
  }

  ghost predicate LogMatches(infos: seq<FindingInfo>, log: seq<LogEntry>, applied: seq<bool>) {
    && |applied| == |infos| && |log| == Rank(infos, |infos|)
    && forall i :: 0 <= i < |infos| ==> EntryMatches(infos, log, applied, i)
  }

  ghost predicate EntryMatches(infos: seq<FindingInfo>, log: seq<LogEntry>, applied: seq<bool>, i: nat)
    requires i < |infos| == |applied|
  {
    if infos[i].autoFixable then
      && Rank(infos, i) < |log| && log[Rank(infos, i)].findingId == infos[i].id
      && (log[Rank(infos, i)].status.Applied? <==> applied[i])
    else !applied[i]
  }

  lemma {:induction false} ReplayLogs(curve: Curve, deck: Deck, infos: seq<FindingInfo>)
    ensures LogMatches(infos, Replay(curve, deck, infos).log, Replay(curve, deck, infos).applied)
  {
    if infos != [] {
      var front, last := infos[..|infos| - 1], infos[|infos| - 1];
      var before, after := Replay(curve, deck, front), Replay(curve, deck, infos);
      ReplayLogs(curve, deck, front);
      assert infos == front + [last];
      forall i | 0 <= i < |infos|
        ensures EntryMatches(infos, after.log, after.applied, i)
      {
        RankPrefix(front, last, i);
        if i < |front| {
          assert EntryMatches(front, before.log, before.applied, i);
        }
      }
      RankPrefix(front, last, |front|);
    }
  }

  // ----- all or nothing

  ghost predicate Nothing(original: Deck, infos: seq<FindingInfo>, outcome: FixOutcome) {
    && outcome.deck == original
    && (forall i :: 0 <= i < |outcome.applied| ==> !outcome.applied[i])
    && (forall i :: 0 <= i < |outcome.log| ==> outcome.log[i].status.Skipped? && outcome.log[i].reason.RolledBack?)
  }

  /** The log of a rolled back fix names the findings and the rules as the replay did. */
  lemma {:induction false} RolledBackLogNamesAll(curve: Curve, original: Deck, infos: seq<FindingInfo>)
    ensures var outcome, log := Fixed(curve, original, infos), Replay(curve, original, infos).log;
      outcome.rolledBack ==>
        && |outcome.log| == |log|
        && forall i :: 0 <= i < |log| ==> outcome.log[i].findingId == log[i].findingId && outcome.log[i].rule == log[i].rule
  {
  }

  ghost predicate Everything(original: Deck, infos: seq<FindingInfo>, state: State, outcome: FixOutcome) {
    && outcome.deck == original.(slides := state.slides)
    && SafeSlides(original.slides, outcome.deck.slides)
    && OnlyTouchedDiffer(original.slides, state)
    && (forall key :: key in state.touched ==> KeyPasses(outcome.deck.slides, original.width, original.height, key))
  }

  /** Either nothing happened and the log says so, or every touched shape passes the check, every untouched
      shape is unchanged and no shape underwent more than a safe edit. Either way the log has one entry per
      auto-fixable finding, and it reads `applied` exactly for the findings reported as applied. */
  lemma {:induction false} FixIsAllOrNothing(curve: Curve, original: Deck, infos: seq<FindingInfo>)
    ensures var outcome := Fixed(curve, original, infos);
      && (if outcome.rolledBack then Nothing(original, infos, outcome)
          else Everything(original, infos, Replay(curve, original, infos).state, outcome))
      && LogMatches(infos, outcome.log, outcome.applied)
  {
    ReplayKeeps(curve, original, infos);
    ReplayLogs(curve, original, infos);
    var replayed := Replay(curve, original, infos);
    var outcome := Fixed(curve, original, infos);
    if outcome.rolledBack {
      forall i | 0 <= i < |infos|
        ensures EntryMatches(infos, outcome.log, outcome.applied, i)
      {
        assert EntryMatches(infos, replayed.log, replayed.applied, i);
      }
    }
  }

  /** A shape with a position that crosses an edge of the slide; a missing width or height counts as none. */
  predicate HangsOff(shape: Shape, deck: Deck) {
    && shape.left.Some? && shape.top.Some?
    && (|| shape.left.value < 0 || shape.top.value < 0
        || shape.left.value + (if shape.width.Some? then shape.width.value else 0) > deck.width
        || shape.top.value + (if shape.height.Some? then shape.height.value else 0) > deck.height)
  }

  lemma {:induction false} OnSlideIff(shape: Shape, deck: Deck)
    ensures OnSlide(shape, deck.width, deck.height) <==> !HangsOff(shape, deck)
  {
  }

  /** The deck structure cannot fail the check: the fix rolls back exactly when the first shape carrying a
      touched id hangs off its slide. */
  lemma {:induction false} RollsBackIffOffSlide(curve: Curve, original: Deck, infos: seq<FindingInfo>)
    ensures var state := Replay(curve, original, infos).state;
      && |state.slides| == |original.slides|
      && (forall key :: key in state.touched ==>
            1 <= key.0 <= |state.slides| && FirstWithId(state.slides[key.0 - 1], key.1).Some?)
      && (Fixed(curve, original, infos).rolledBack <==>
            exists key :: key in state.touched &&
              var slide := state.slides[key.0 - 1];
              HangsOff(slide[FirstWithId(slide, key.1).value], original))
  {
    ReplayKeeps(curve, original, infos);
    var state := Replay(curve, original, infos).state;
    forall key | key in state.touched
      ensures FirstWithId(state.slides[key.0 - 1], key.1).Some?
    {
      assert KeyExists(state.slides, key);
    }
  }

  /** Every changed shape that is the first to carry its id lies on its slide. */
  lemma {:induction false} ChangedShapesOnSlide(curve: Curve, original: Deck, infos: seq<FindingInfo>, i: nat, k: nat)
    requires i < |original.slides| && k < |original.slides[i]|
    requires FirstWithId(original.slides[i], original.slides[i][k].id) == Some(k)
    ensures var deck := Fixed(curve, original, infos).deck;
      && |deck.slides| == |original.slides| && |deck.slides[i]| == |original.slides[i]|
      && (deck.slides[i][k] != original.slides[i][k] ==> OnSlide(deck.slides[i][k], original.width, original.height))
  {
    FixIsAllOrNothing(curve, original, infos);
    var outcome := Fixed(curve, original, infos);
    var state := Replay(curve, original, infos).state;
    if !outcome.rolledBack && state.slides[i][k] != original.slides[i][k] {
      var key := (i + 1, original.slides[i][k].id);
      var slide := state.slides[i];
      assert key in state.touched;
      assert KeyPasses(state.slides, original.width, original.height, key);
      assert forall j :: 0 <= j < |slide| ==> slide[j].id == original.slides[i][j].id by {
        assert forall j :: 0 <= j < |slide| ==> SafeEdit(original.slides[i][j], slide[j]);
      }
      assert FirstWithId(slide, key.1) == Some(k);
    }
  }

  /** A shape before `k` carries the same id and lies on the slide. */
  ghost predicate HiddenBehind(slide: Slide, width: Extent, height: Extent, k: nat)
    requires k < |slide|
  {
    exists j :: 0 <= j < k && slide[j].id == slide[k].id && OnSlide(slide[j], width, height)
  }

  /** Ids name one shape each, as the file format asks. */
  ghost predicate DistinctIds(slides: seq<Slide>) {
    forall i, j, k :: 0 <= i < |slides| && 0 <= j < k < |slides[i]| ==> slides[i][j].id != slides[i][k].id
  }

  /** The changed shapes of a fixed deck lie on their slides. */
  ghost predicate ChangedAreOnSlide(original: Deck, outcome: Deck) {
    && |outcome.slides| == |original.slides|
    && (forall i :: 0 <= i < |original.slides| ==> |outcome.slides[i]| == |original.slides[i]|)
    && (forall i, k :: 0 <= i < |original.slides| && 0 <= k < |original.slides[i]| ==>
          || outcome.slides[i][k] == original.slides[i][k]
          || OnSlide(outcome.slides[i][k], original.width, original.height))
  }

  ghost predicate SameIds(before: seq<Slide>, after: seq<Slide>) {
    && |before| == |after|
    && (forall i :: 0 <= i < |before| ==> |before[i]| == |after[i]|)
    && (forall i, k :: 0 <= i < |before| && 0 <= k < |before[i]| ==> before[i][k].id == after[i][k].id)
  }

  lemma {:induction false} FixKeepsIds(curve: Curve, original: Deck, infos: seq<FindingInfo>)
    ensures SameIds(original.slides, Fixed(curve, original, infos).deck.slides)
  {
    FixIsAllOrNothing(curve, original, infos);
    var slides: seq<Slide> := Fixed(curve, original, infos).deck.slides;
    if !Fixed(curve, original, infos).rolledBack {
      forall i, k | 0 <= i < |slides| && 0 <= k < |slides[i]|
        ensures original.slides[i][k].id == slides[i][k].id
      {
        assert SafeEdit(original.slides[i][k], slides[i][k]);
      }
    }
  }

  lemma {:induction false} ChangedShapeOnSlide(curve: Curve, original: Deck, infos: seq<FindingInfo>, i: nat, k: nat)
    requires i < |original.slides| && k < |original.slides[i]| && SameIds(original.slides, Fixed(curve, original, infos).deck.slides)
    requires Fixed(curve, original, infos).deck.slides[i][k] != original.slides[i][k]
    ensures var slide := Fixed(curve, original, infos).deck.slides[i];
      OnSlide(slide[k], original.width, original.height) || HiddenBehind(slide, original.width, original.height, k)
  {
    FixIsAllOrNothing(curve, original, infos);
    var key := (i + 1, original.slides[i][k].id);
    var slide := Fixed(curve, original, infos).deck.slides[i];
    assert key in Replay(curve, original, infos).state.touched;
    assert KeyPasses(Fixed(curve, original, infos).deck.slides, original.width, original.height, key);
    var first := FirstWithId(slide, key.1).value;
    assert slide[k].id == key.1;
    assert first <= k;
  }

  /** Whatever the ids, every changed shape lies on its slide or behind an earlier shape with its id that does. */
  lemma {:induction false} AllChangedShapesOnSlide(curve: Curve, original: Deck, infos: seq<FindingInfo>)
    ensures var slides := Fixed(curve, original, infos).deck.slides;
      && SameIds(original.slides, slides)
      && (forall i, k :: 0 <= i < |slides| && 0 <= k < |slides[i]| && slides[i][k] != original.slides[i][k] ==>
            || OnSlide(slides[i][k], original.width, original.height)
            || (HiddenBehind(slides[i], original.width, original.height, k) && !DistinctIds(original.slides)))
  {
    FixKeepsIds(curve, original, infos);
    var slides := Fixed(curve, original, infos).deck.slides;
    forall i, k | 0 <= i < |slides| && 0 <= k < |slides[i]| && slides[i][k] != original.slides[i][k]
      ensures OnSlide(slides[i][k], original.width, original.height) || HiddenBehind(slides[i], original.width, original.height, k)
      ensures DistinctIds(original.slides) ==> !HiddenBehind(slides[i], original.width, original.height, k)
    {
      ChangedShapeOnSlide(curve, original, infos, i, k);
    }
  }

  /** One finding, given the shape and rule it picks: the fix rolls back exactly when it applies and the first
      carrier of the shape's id then hangs off the slide; otherwise exactly that shape is edited. So an applied edit
      that hangs off the slide is kept exactly when an earlier shape carries the id and the first that does lies on
      the slide. */
  lemma {:induction false} OneFindingKeptOffSlideIff(curve: Curve, original: Deck, info: FindingInfo, k: nat, rule: RuleName)
    requires info.autoFixable && info.slideNum.Some? && 1 <= info.slideNum.value <= |original.slides| && info.bbox.Some?
    requires IsTarget(original.slides[info.slideNum.value - 1], info.bbox.value, original.width, original.height, k)
    requires IsItsRule(info, rule)
    ensures var slide := original.slides[info.slideNum.value - 1];
      var edit, first := RuleEdit(curve, rule, slide, k), FirstWithId(slide, slide[k].id);
      var outcome := Fixed(curve, original, [info]);
      && first.Some? && first.value <= k
      && (outcome.rolledBack <==>
            edit.result.applied &&
            !OnSlide(if first.value == k then edit.shape else slide[first.value], original.width, original.height))
      && (!outcome.rolledBack ==>
            outcome.deck.slides == WithShape(original.slides, info.slideNum.value - 1, k, edit.shape))
      && (edit.result.applied && !OnSlide(edit.shape, original.width, original.height) ==>
            (!outcome.rolledBack <==>
               first.value < k && OnSlide(slide[first.value], original.width, original.height)))
  {
    var n := info.slideNum.value;
    var slide := original.slides[n - 1];
    var edit, first := RuleEdit(curve, rule, slide, k), FirstWithId(slide, slide[k].id).value;
    ReplaySnoc(curve, original, [], info);
    assert [] + [info] == [info];
    AppliesIff(curve, original.width, original.height, State(original.slides, {}), info, k, rule);
    RuleEditSafe(curve, rule, slide, k);
    WithSameShape(original.slides, n - 1, k);
    var state := Replay(curve, original, [info]).state;
    if edit.result.applied {
      FirstStaysFirst(slide, k, edit.shape);
      assert state.touched == {(n, slide[k].id)};
      assert state.slides[n - 1] == slide[k := edit.shape];
      assert KeyPasses(state.slides, original.width, original.height, (n, slide[k].id)) <==>
             OnSlide(if first == k then edit.shape else slide[first], original.width, original.height);
    } else {
      UnappliedChangesNothing(curve, original.width, original.height, State(original.slides, {}), info);
    }
  }

  lemma {:induction false} FirstStaysFirst(slide: Slide, k: nat, shape: Shape)
    requires k < |slide| && shape.id == slide[k].id
    ensures FirstWithId(slide[k := shape], shape.id) == FirstWithId(slide, shape.id)
  {
    var after := slide[k := shape];
    assert forall i :: 0 <= i < |slide| ==> after[i].id == slide[i].id;
    var was, now := FirstWithId(slide, shape.id), FirstWithId(after, shape.id);
    assert was.Some? && now.Some?;
    assert after[was.value].id == shape.id == slide[now.value].id;
  }

  // ----- dropping what did not apply

  function Without<T>(xs: seq<T>, i: nat): seq<T>
    requires i < |xs|
  {
    xs[..i] + xs[i + 1..]
  }

  lemma {:induction false} DropCarriesOver(curve: Curve, deck: Deck, front: seq<FindingInfo>, last: FindingInfo, i: nat)
    requires i < |front|
    requires var all, rest := Replay(curve, deck, front), Replay(curve, deck, Without(front, i));
      rest.state == all.state && rest.applied == Without(all.applied, i)
    ensures var all, rest := Replay(curve, deck, front + [last]), Replay(curve, deck, Without(front, i) + [last]);
      rest.state == all.state && rest.applied == Without(all.applied, i)
  {
    ReplaySnoc(curve, deck, front, last);
    ReplaySnoc(curve, deck, Without(front, i), last);
    var applied := Replay(curve, deck, front).applied;
    var now := ApplyOne(curve, deck.width, deck.height, Replay(curve, deck, front).state, last).Applied();
    assert Without(applied + [now], i) == Without(applied, i) + [now];
  }

  lemma {:induction false} DropLast(curve: Curve, deck: Deck, front: seq<FindingInfo>, last: FindingInfo)
    requires !ApplyOne(curve, deck.width, deck.height, Replay(curve, deck, front).state, last).Applied()
    ensures var all, rest := Replay(curve, deck, front + [last]), Replay(curve, deck, front);
      rest.state == all.state && rest.applied == Without(all.applied, |front|)
  {
    ReplaySnoc(curve, deck, front, last);
    var before := Replay(curve, deck, front);
    UnappliedChangesNothing(curve, deck.width, deck.height, before.state, last);
    assert Without(before.applied + [false], |front|) == before.applied;
  }

  lemma {:induction false} AppliedInFront(curve: Curve, deck: Deck, front: seq<FindingInfo>, last: FindingInfo, i: nat)
    requires i <= |front|
    ensures Replay(curve, deck, front + [last]).applied[i] ==
      if i < |front| then Replay(curve, deck, front).applied[i]
      else ApplyOne(curve, deck.width, deck.height, Replay(curve, deck, front).state, last).Applied()
  {
    ReplaySnoc(curve, deck, front, last);
  }

  /** A finding that was not applied can be left out of the replay: same slides, same touched shapes, and the
      other findings apply as before. */
  lemma {:induction false} UnappliedCanBeDropped(curve: Curve, deck: Deck, infos: seq<FindingInfo>, i: nat)
    requires i < |infos| && !Replay(curve, deck, infos).applied[i]
    ensures var all, rest := Replay(curve, deck, infos), Replay(curve, deck, Without(infos, i));
      rest.state == all.state && rest.applied == Without(all.applied, i)
    decreases |infos|
  {
    var n := |infos| - 1;
    var front, last := infos[..n], infos[n];
    assert infos == front + [last];
    AppliedInFront(curve, deck, front, last, i);
    if i == n {
      assert Without(infos, i) == front;
      DropLast(curve, deck, front, last);
    } else {
      UnappliedCanBeDropped(curve, deck, front, i);
      DropCarriesOver(curve, deck, front, last, i);
      assert Without(infos, i) == Without(front, i) + [last];
    }
  }

  /** The same for the whole fix: the deck does not depend on findings that did not apply. */
  lemma {:induction false} DroppingKeepsTheDeck(curve: Curve, original: Deck, infos: seq<FindingInfo>, i: nat)
    requires i < |infos| && !Replay(curve, original, infos).applied[i]
    ensures Fixed(curve, original, Without(infos, i)).deck == Fixed(curve, original, infos).deck
    ensures Fixed(curve, original, Without(infos, i)).rolledBack == Fixed(curve, original, infos).rolledBack
  {
    UnappliedCanBeDropped(curve, original, infos, i);
  }

  /** Fixing nothing returns the original and never rolls back. */
  lemma {:induction false} FixingNothing(curve: Curve, original: Deck)
    ensures Fixed(curve, original, []).deck == original && !Fixed(curve, original, []).rolledBack
  {
  }
}
