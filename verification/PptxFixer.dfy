/** The fixer: match each finding to a shape, apply the first applicable rule, check the touched shapes, and
    keep everything or nothing. */
module PptxFixer {
  import opened Wrappers
  import opened Taxonomy
  import opened Geometry
  import opened Slides
  import opened FixRules

  /** The immutable part of a finding; `text` is its title and description, lower-cased. */
  datatype FindingInfo = FindingInfo(
    id: int, slideNum: Option<int>, category: Category, text: string, bbox: Option<BBox>, autoFixable: bool
  )

  class Finding {
    const info: FindingInfo
    var autoFixed: bool

    constructor (info: FindingInfo, autoFixed: bool)
      ensures this.info == info && this.autoFixed == autoFixed
    {
      this.info, this.autoFixed := info, autoFixed;
    }
  }

  // ----- choosing the rule

  datatype RuleName = MinFontSize | Contrast | Alignment

  const RULES := [MinFontSize, Contrast, Alignment]

  predicate Mentions(text: string, word: string) {
    exists i :: 0 <= i <= |text| - |word| && WordAt(text, word, i)
  }

  predicate WordAt(text: string, word: string, i: nat) {
    i + |word| <= |text| && text[i..i + |word|] == word
  }

  predicate AppliesTo(rule: RuleName, info: FindingInfo) {
    match rule
    case MinFontSize => info.category.TYPOGRAPHY? && (Mentions(info.text, "шрифт") || Mentions(info.text, "кегл"))
    case Contrast => info.category.READABILITY? && Mentions(info.text, "контраст")
    case Alignment => Mentions(info.text, "выровн") || Mentions(info.text, "выравн")
  }

  function FirstRule(rules: seq<RuleName>, info: FindingInfo): (rule: Option<RuleName>)
    ensures rule.Some? ==> exists i :: 0 <= i < |rules| && rules[i] == rule.value && AppliesTo(rules[i], info)
                                     && forall j :: 0 <= j < i ==> !AppliesTo(rules[j], info)
    ensures rule.None? ==> forall i :: 0 <= i < |rules| ==> !AppliesTo(rules[i], info)
  {
    if rules == [] then None
    else if AppliesTo(rules[0], info) then Some(rules[0])
    else FirstRule(rules[1..], info)
  }

  /** A text mentions a word exactly when it is some text, the word, and some text. */
  lemma {:induction false} MentionsIff(text: string, word: string)
    ensures Mentions(text, word) <==> exists before, after :: text == before + word + after
  {
    if i :| 0 <= i <= |text| - |word| && WordAt(text, word, i) {
      assert text == text[..i] + word + text[i + |word|..];
    }
    if before, after :| text == before + word + after {
      assert WordAt(text, word, |before|);
    }
  }

  /** The words each rule listens to, and in which category: an alignment in any. */
  lemma {:induction false} RuleWords(info: FindingInfo, before: string, after: string)
    ensures info.text == before + "шрифт" + after || info.text == before + "кегл" + after ==>
      (AppliesTo(MinFontSize, info) <==> info.category == TYPOGRAPHY)
    ensures info.text == before + "контраст" + after ==> (AppliesTo(Contrast, info) <==> info.category == READABILITY)
    ensures info.text == before + "выровн" + after || info.text == before + "выравн" + after ==> AppliesTo(Alignment, info)
    ensures AppliesTo(MinFontSize, info) ==>
      info.category == TYPOGRAPHY && exists a, b :: info.text == a + "шрифт" + b || info.text == a + "кегл" + b
    ensures AppliesTo(Contrast, info) ==>
      info.category == READABILITY && exists a, b :: info.text == a + "контраст" + b
    ensures AppliesTo(Alignment, info) ==> exists a, b :: info.text == a + "выровн" + b || info.text == a + "выравн" + b
  {
    MentionsIff(info.text, "шрифт");
    MentionsIff(info.text, "кегл");
    MentionsIff(info.text, "контраст");
    MentionsIff(info.text, "выровн");
    MentionsIff(info.text, "выравн");
  }

  /** What a rule does to shape `k` of a slide. */
  function RuleEdit(curve: Curve, rule: RuleName, slide: Slide, k: nat): Edit
    requires k < |slide|
  {
    match rule
    case MinFontSize => RaiseFonts(slide[k])
    case Contrast => RecolorText(curve, slide[k])
    case Alignment => Align(slide, k)
  }

  lemma {:induction false} RuleEditSafe(curve: Curve, rule: RuleName, slide: Slide, k: nat)
    requires k < |slide|
    ensures SafeEdit(slide[k], RuleEdit(curve, rule, slide, k).shape)
    ensures EdgesFrom(slide, slide[k := RuleEdit(curve, rule, slide, k).shape])
    ensures !RuleEdit(curve, rule, slide, k).result.applied ==> RuleEdit(curve, rule, slide, k).shape == slide[k]
  {
    var after := RuleEdit(curve, rule, slide, k).shape;
    match rule {
      case MinFontSize =>
        RaiseFontsSafe(slide[k]);
        RunEditIsSafe(slide[k], after, Raised);
      case Contrast =>
        RecolorTextSafe(curve, slide[k]);
        RunEditIsSafe(slide[k], after, run => Recolored(curve, Background(slide[k]), run));
      case Alignment =>
        AlignSafe(slide, k);
    }
    SnapsFrom(slide, k, after);
  }

  // ----- choosing the shape

  function Clamp01(v: real): (c: real)
    ensures 0.0 <= c <= 1.0
  {
    MaxReal(0.0, MinReal(1.0, v))
  }

  predicate Framed(shape: Shape) {
    shape.left.Some? && shape.top.Some? && shape.width.Some? && shape.height.Some?
  }

  function ShapeBox(shape: Shape, width: Extent, height: Extent): BBox
    requires Framed(shape)
  {
    Box(Clamp01(shape.left.value as real / width as real), Clamp01(shape.top.value as real / height as real),
        Clamp01(shape.width.value as real / width as real), Clamp01(shape.height.value as real / height as real))
  }

  /** The box of a shape in slide units is its frame in EMU cut to the slide: lefts and widths against the slide's
      width, tops and heights against its height. */
  lemma {:induction false} ShapeBoxScales(shape: Shape, width: Extent, height: Extent)
    requires Framed(shape)
    ensures var box := ShapeBox(shape, width, height);
      && Scales(box.x, width, shape.left.value) && Scales(box.y, height, shape.top.value)
      && Scales(box.w, width, shape.width.value) && Scales(box.h, height, shape.height.value)
  {
    ClampScales(shape.left.value, width);
    ClampScales(shape.top.value, height);
    ClampScales(shape.width.value, width);
    ClampScales(shape.height.value, height);
  }

  /** A fraction of the extent that is the length, cut to 0..extent. */
  predicate Scales(fraction: real, extent: Extent, length: int) {
    fraction * extent as real == Cut(length, extent) as real
  }

  /** A length cut to 0..extent. */
  function Cut(length: int, extent: Extent): int {
    if length < 0 then 0 else if length > extent then extent else length
  }

  lemma {:induction false} QuotientSign(n: real, d: real)
    requires d > 0.0
    ensures (n / d) * d == n
    ensures n < 0.0 <==> n / d < 0.0
    ensures n > d <==> n / d > 1.0
  {
    var q := n / d;
    assert q * d == n;
    if q < 0.0 {
      assert q * d < 0.0;
    } else {
      assert q * d >= 0.0;
    }
    if q > 1.0 {
      assert q * d > 1.0 * d;
    } else {
      assert q * d <= 1.0 * d;
    }
  }

  lemma {:induction false} ClampScales(length: int, extent: Extent)
    ensures Scales(Clamp01(length as real / extent as real), extent, length)
  {
    QuotientSign(length as real, extent as real);
    var q, clamped := length as real / extent as real, Clamp01(length as real / extent as real);
    assert clamped == if q < 0.0 then 0.0 else if q > 1.0 then 1.0 else q;
  }

  /** How well a shape matches; a shape without a full frame is passed over, as one that scores nothing. */
  function MatchScore(shape: Shape, bbox: BBox, width: Extent, height: Extent): real {
    if Framed(shape) then Iou(bbox, ShapeBox(shape, width, height)) else 0.0
  }

  /** The first best match among the first `n` shapes: none when all score zero. */
  function BestMatch(slide: Slide, bbox: BBox, width: Extent, height: Extent, n: nat): (best: Option<nat>)
    requires n <= |slide|
    ensures best.Some? ==>
      && best.value < n && MatchScore(slide[best.value], bbox, width, height) > 0.0
      && (forall i :: 0 <= i < n ==>
            MatchScore(slide[i], bbox, width, height) <= MatchScore(slide[best.value], bbox, width, height))
      && (forall i :: 0 <= i < best.value ==>
            MatchScore(slide[i], bbox, width, height) < MatchScore(slide[best.value], bbox, width, height))
    ensures best.None? ==> forall i :: 0 <= i < n ==> MatchScore(slide[i], bbox, width, height) <= 0.0
  {
    if n == 0 then None
    else
      var best := BestMatch(slide, bbox, width, height, n - 1);
      var bestScore := if best.None? then 0.0 else MatchScore(slide[best.value], bbox, width, height);
      if MatchScore(slide[n - 1], bbox, width, height) > bestScore then Some(n - 1) else best
  }

  method FindMatchingShape(slide: Slide, bbox: BBox, width: Extent, height: Extent) returns (best: Option<nat>)
    ensures best == BestMatch(slide, bbox, width, height, |slide|)
  {
    best := None;
    var bestScore := 0.0;
    for i := 0 to |slide|
      invariant best == BestMatch(slide, bbox, width, height, i)
      invariant bestScore == if best.None? then 0.0 else MatchScore(slide[best.value], bbox, width, height)
    {
      var shape := slide[i];
      if shape.left.None? || shape.top.None? || shape.width.None? || shape.height.None? {
        continue;
      }
      var score := Iou(bbox, ShapeBox(shape, width, height));
      if score > bestScore {
        best, bestScore := Some(i), score;
      }
    }
  }

  // ----- one finding

  datatype Status = Applied | Skipped

  datatype LogEntry = LogEntry(findingId: int, rule: Option<RuleName>, status: Status, reason: Reason)

  /** A shape is recorded as touched by its 1-based slide number and its id. */
  type Key = (int, int)

  datatype State = State(slides: seq<Slide>, touched: set<Key>)

  datatype Outcome = Outcome(state: State, entry: Option<LogEntry>) {
    predicate Applied() { entry.Some? && entry.value.status.Applied? }
  }

  function ApplyOne(curve: Curve, width: Extent, height: Extent, state: State, info: FindingInfo): Outcome {
    if !info.autoFixable then Outcome(state, None)
    else if info.slideNum.None? || info.bbox.None? then
      Outcome(state, Some(LogEntry(info.id, None, Skipped, NoSlideOrBox)))
    else if info.slideNum.value < 1 || info.slideNum.value > |state.slides| then
      Outcome(state, Some(LogEntry(info.id, None, Skipped, SlideOutOfRange)))
    else
      var si := info.slideNum.value - 1;
      var slide := state.slides[si];
      var k := BestMatch(slide, info.bbox.value, width, height, |slide|);
      if k.None? then Outcome(state, Some(LogEntry(info.id, None, Skipped, NoMatchingShape)))
      else
        var rule := FirstRule(RULES, info);
        if rule.None? then Outcome(state, Some(LogEntry(info.id, None, Skipped, NoApplicableRule)))
        else
          var edit := RuleEdit(curve, rule.value, slide, k.value);
          var slides := WithShape(state.slides, si, k.value, edit.shape);
          if edit.result.applied then
            Outcome(State(slides, state.touched + {(info.slideNum.value, edit.shape.id)}),
                    Some(LogEntry(info.id, rule, Status.Applied, NoReason)))
          else
            Outcome(State(slides, state.touched), Some(LogEntry(info.id, rule, Skipped, edit.result.reason)))
  }

  // ----- a list of findings

  datatype Replayed = Replayed(state: State, log: seq<LogEntry>, applied: seq<bool>)

  /** The findings applied in order to the original slides. */
  function Replay(curve: Curve, deck: Deck, infos: seq<FindingInfo>): (r: Replayed)
    ensures |r.applied| == |infos|
  {
    if infos == [] then Replayed(State(deck.slides, {}), [], [])
    else
      var before := Replay(curve, deck, infos[..|infos| - 1]);
      var step := ApplyOne(curve, deck.width, deck.height, before.state, infos[|infos| - 1]);
      Replayed(step.state,
               if step.entry.Some? then before.log + [step.entry.value] else before.log,
               before.applied + [step.Applied()])
  }

  function FirstWithId(slide: Slide, id: int): (k: Option<nat>)
    ensures k.Some? ==> k.value < |slide| && slide[k.value].id == id && forall i :: 0 <= i < k.value ==> slide[i].id != id
    ensures k.None? ==> forall i :: 0 <= i < |slide| ==> slide[i].id != id
  {
    if slide == [] then None
    else if slide[0].id == id then Some(0)
    else
      var rest := FirstWithId(slide[1..], id);
      if rest.None? then None else Some(rest.value + 1)
  }

  function OrZero(n: Option<int>): int { if n.Some? then n.value else 0 }

  /** A shape with a position lies inside the slide; one without is let through. */
  predicate OnSlide(shape: Shape, width: Extent, height: Extent) {
    shape.left.None? || shape.top.None? ||
    (&& shape.left.value >= 0 && shape.top.value >= 0
     && shape.left.value + OrZero(shape.width) <= width
     && shape.top.value + OrZero(shape.height) <= height)
  }

  predicate KeyPasses(slides: seq<Slide>, width: Extent, height: Extent, key: Key) {
    && 1 <= key.0 <= |slides|
    && var k := FirstWithId(slides[key.0 - 1], key.1);
       k.Some? && OnSlide(slides[key.0 - 1][k.value], width, height)
  }

  predicate ControlCheck(deck: Deck, originalSlideCount: nat, touched: set<Key>) {
    && |deck.slides| == originalSlideCount
    && forall key :: key in touched ==> KeyPasses(deck.slides, deck.width, deck.height, key)
  }

  datatype FixOutcome = FixOutcome(deck: Deck, log: seq<LogEntry>, applied: seq<bool>, rolledBack: bool)

  function RolledBackLog(log: seq<LogEntry>): seq<LogEntry> {
    seq(|log|, i requires 0 <= i < |log| => LogEntry(log[i].findingId, log[i].rule, Skipped, RolledBack))
  }

  /** The whole fix: replay, check, keep or roll back. */
  function Fixed(curve: Curve, original: Deck, infos: seq<FindingInfo>): (outcome: FixOutcome)
    ensures |outcome.applied| == |infos|
  {
    var replayed := Replay(curve, original, infos);
    var deck := original.(slides := replayed.state.slides);
    if ControlCheck(deck, |original.slides|, replayed.state.touched) then
      FixOutcome(deck, replayed.log, replayed.applied, false)
    else
      FixOutcome(original, RolledBackLog(replayed.log), seq(|infos|, _ => false), true)
  }

  // ----- the fixer itself

  function Infos(findings: seq<Finding>): (infos: seq<FindingInfo>)
    ensures |infos| == |findings| && forall i :: 0 <= i < |findings| ==> infos[i] == findings[i].info
  {
    seq(|findings|, i requires 0 <= i < |findings| => findings[i].info)
  }

  /** Some applied step was for this very finding. */
  ghost predicate AppliedTo(findings: seq<Finding>, applied: seq<bool>, f: Finding) {
    exists j :: 0 <= j < |applied| && j < |findings| && findings[j] == f && applied[j]
  }

  class Fixer {
    const curve: Curve
    var lastLog: seq<LogEntry>

    constructor (curve: Curve)
      ensures this.curve == curve && lastLog == []
    {
      this.curve, lastLog := curve, [];
    }

    method ApplyRule(rule: RuleName, presentation: Presentation, si: nat, k: nat) returns (result: FixResult)
      requires presentation.HasShape(si, k)
      modifies presentation
      ensures var edit := RuleEdit(curve, rule, old(presentation.slides)[si], k);
        result == edit.result &&
        presentation.slides == WithShape(old(presentation.slides), si, k, edit.shape)
    {
      match rule {
        case MinFontSize => result := ApplyMinFontSize(presentation, si, k);
        case Contrast => result := ApplyContrast(curve, presentation, si, k);
        case Alignment => result := ApplyAlignment(presentation, si, k);
      }
    }

    /** One finding against the open presentation; returns the touched set with this finding's shape added. */
    method ApplyOneInPlace(finding: Finding, presentation: Presentation, touched: set<Key>)
      returns (touchedNow: set<Key>, entry: Option<LogEntry>)
      modifies finding, presentation
      ensures var step := ApplyOne(curve, presentation.width, presentation.height,
                                   State(old(presentation.slides), touched), finding.info);
        && presentation.slides == step.state.slides && touchedNow == step.state.touched && entry == step.entry
        && finding.autoFixed == (old(finding.autoFixed) || step.Applied())
    {
      touchedNow := touched;
      var info := finding.info;
      if !info.autoFixable {
        return touchedNow, None;
      }
      if info.slideNum.None? || info.bbox.None? {
        return touchedNow, Some(LogEntry(info.id, None, Skipped, NoSlideOrBox));
      }
      if info.slideNum.value < 1 || info.slideNum.value > |presentation.slides| {
        return touchedNow, Some(LogEntry(info.id, None, Skipped, SlideOutOfRange));
      }
      var si := info.slideNum.value - 1;
      var k := FindMatchingShape(presentation.slides[si], info.bbox.value, presentation.width, presentation.height);
      if k.None? {
        return touchedNow, Some(LogEntry(info.id, None, Skipped, NoMatchingShape));
      }
      var rule := FirstRule(RULES, info);
      if rule.None? {
        return touchedNow, Some(LogEntry(info.id, None, Skipped, NoApplicableRule));
      }
      var result := ApplyRule(rule.value, presentation, si, k.value);
      if result.applied {
        finding.autoFixed := true;
        touchedNow := touchedNow + {(info.slideNum.value, presentation.slides[si][k.value].id)};
        entry := Some(LogEntry(info.id, rule, Status.Applied, NoReason));
      } else {
        entry := Some(LogEntry(info.id, rule, Skipped, result.reason));
      }
    }

    /** The check visits the touched shapes in an arbitrary order and stops at the first that fails. */
    method PassesControlCheck(target: Deck, originalSlideCount: nat, touched: set<Key>) returns (ok: bool)
      requires forall key :: key in touched ==> 1 <= key.0 <= |target.slides|
      ensures ok <==> ControlCheck(target, originalSlideCount, touched)
    {
      if |target.slides| != originalSlideCount {
        return false;
      }
      var remaining := touched;
      while remaining != {}
        invariant remaining <= touched
        invariant forall key :: key in touched && key !in remaining ==>
          KeyPasses(target.slides, target.width, target.height, key)
        decreases remaining
      {
        var key :| key in remaining;
        var slide := target.slides[key.0 - 1];
        var k := FirstWithId(slide, key.1);
        if k.None? {
          return false;
        }
        var shape := slide[k.value];
        if shape.left.Some? && shape.top.Some? {
          if shape.left.value < 0 || shape.top.value < 0 {
            return false;
          }
          if shape.left.value + OrZero(shape.width) > target.width {
            return false;
          }
          if shape.top.value + OrZero(shape.height) > target.height {
            return false;
          }
        }
        remaining := remaining - {key};
      }
      return true;
    }

    method ClearFlags(findings: seq<Finding>)
      modifies findings
      ensures forall i :: 0 <= i < |findings| ==> !findings[i].autoFixed
    {
      for n := 0 to |findings|
        invariant forall i :: 0 <= i < n ==> !findings[i].autoFixed
      {
        findings[n].autoFixed := false;
      }
    }

    method Fix(original: Deck, findings: seq<Finding>) returns (target: Deck)
      modifies this, findings
      ensures var outcome := Fixed(curve, original, Infos(findings));
        && target == outcome.deck && lastLog == outcome.log
        && forall i :: 0 <= i < |findings| ==>
             findings[i].autoFixed ==
               (!outcome.rolledBack &&
                (old(findings[i].autoFixed) || AppliedTo(findings, outcome.applied, findings[i])))
    {
      var presentation := new Presentation(original);
      var log: seq<LogEntry> := [];
      var touched: set<Key> := {};
      ghost var infos := Infos(findings);
      for n := 0 to |findings|
        invariant fresh(presentation)
        invariant presentation.width == original.width && presentation.height == original.height
        invariant Replay(curve, original, infos[..n]).state == State(presentation.slides, touched)
        invariant Replay(curve, original, infos[..n]).log == log
        invariant forall i :: 0 <= i < |findings| ==>
          findings[i].autoFixed ==
            (old(findings[i].autoFixed) || AppliedTo(findings, Replay(curve, original, infos[..n]).applied, findings[i]))
      {
        ghost var before := Replay(curve, original, infos[..n]);
        ReplaySnoc(curve, original, infos[..n], infos[n]);
        assert infos[..n] + [infos[n]] == infos[..n + 1];
        var touchedNow, entry := ApplyOneInPlace(findings[n], presentation, touched);
        touched := touchedNow;
        if entry.Some? {
          log := log + [entry.value];
        }
        AppliedToSnoc(findings, before.applied, entry.Some? && entry.value.status.Applied?);
      }
      assert infos[..|findings|] == infos;
      ReplayKeysInRange(curve, original, infos);
      target := presentation.Contents();
      var ok := PassesControlCheck(target, |original.slides|, touched);
      if !ok {
        target := original;
        ClearFlags(findings);
        log := RolledBackLog(log);
      }
      lastLog := log;
    }
  }

  lemma {:induction false} ReplaySnoc(curve: Curve, deck: Deck, infos: seq<FindingInfo>, info: FindingInfo)
    ensures var before := Replay(curve, deck, infos);
      var step := ApplyOne(curve, deck.width, deck.height, before.state, info);
      Replay(curve, deck, infos + [info]) ==
        Replayed(step.state, if step.entry.Some? then before.log + [step.entry.value] else before.log,
                 before.applied + [step.Applied()])
  {
    assert (infos + [info])[..|infos|] == infos;
  }

  lemma {:induction false} AppliedToSnoc(findings: seq<Finding>, applied: seq<bool>, last: bool)
    requires |applied| < |findings|
    ensures forall f :: AppliedTo(findings, applied + [last], f) <==>
      AppliedTo(findings, applied, f) || (last && findings[|applied|] == f)
  {
    var longer := applied + [last];
    forall f | last && findings[|applied|] == f
      ensures AppliedTo(findings, longer, f)
    {
      assert longer[|applied|];
    }
    forall f | AppliedTo(findings, applied, f)
      ensures AppliedTo(findings, longer, f)
    {
      var j :| 0 <= j < |applied| && j < |findings| && findings[j] == f && applied[j];
      assert longer[j];
    }
  }

  // ----- what a replay keeps

  /** Slides and shapes stay in place, each shape undergoes only safe edits, and no edge is new to its slide. */
  ghost predicate SafeSlides(before: seq<Slide>, after: seq<Slide>) {
    && |before| == |after|
    && (forall i :: 0 <= i < |before| ==> |before[i]| == |after[i]|)
    && (forall i, k :: 0 <= i < |before| && 0 <= k < |before[i]| ==> SafeEdit(before[i][k], after[i][k]))
    && (forall i :: 0 <= i < |before| ==> EdgesFrom(before[i], after[i]))
  }

  /** Only shapes whose key is recorded as touched differ. */
  ghost predicate OnlyTouchedDiffer(before: seq<Slide>, state: State)
    requires SafeSlides(before, state.slides)
  {
    forall i, k :: 0 <= i < |before| && 0 <= k < |before[i]| && (i + 1, before[i][k].id) !in state.touched ==>
      state.slides[i][k] == before[i][k]
  }

  ghost predicate KeyExists(slides: seq<Slide>, key: Key) {
    1 <= key.0 <= |slides| && HasId(slides[key.0 - 1], key.1)
  }

  ghost predicate HasId(slide: Slide, id: int) {
    exists k :: 0 <= k < |slide| && slide[k].id == id
  }

  /** A finding that is not applied changes nothing. */
  lemma {:induction false} UnappliedChangesNothing(curve: Curve, width: Extent, height: Extent, state: State, info: FindingInfo)
    requires !ApplyOne(curve, width, height, state, info).Applied()
    ensures ApplyOne(curve, width, height, state, info).state == state
  {
    if info.slideNum.Some? && 1 <= info.slideNum.value <= |state.slides| && info.bbox.Some? {
      var si := info.slideNum.value - 1;
      var k := BestMatch(state.slides[si], info.bbox.value, width, height, |state.slides[si]|);
      if k.Some? && FirstRule(RULES, info).Some? {
        RuleEditSafe(curve, FirstRule(RULES, info).value, state.slides[si], k.value);
        WithSameShape(state.slides, si, k.value);
      }
    }
  }

  lemma {:induction false} UnchangedIsSafe(slides: seq<Slide>)
    ensures SafeSlides(slides, slides)
  {
    forall i | 0 <= i < |slides|
      ensures EdgesFrom(slides[i], slides[i])
    {
      SameEdges(slides[i]);
    }
  }

  /** Replacing one shape by a safe edit of it and recording its key. */
  lemma {:induction false} EditKeeps(slides: seq<Slide>, touched: set<Key>, si: nat, k: nat, shape: Shape)
    requires si < |slides| && k < |slides[si]| && SafeEdit(slides[si][k], shape)
    requires EdgesFrom(slides[si], slides[si][k := shape])
    ensures var after := State(WithShape(slides, si, k, shape), touched + {(si + 1, shape.id)});
      && SafeSlides(slides, after.slides) && OnlyTouchedDiffer(slides, after)
      && KeyExists(after.slides, (si + 1, shape.id))
  {
    var after: seq<Slide> := WithShape(slides, si, k, shape);
    UnchangedIsSafe(slides);
    assert after[si][k].id == shape.id;
    assert (si + 1) - 1 == si;
  }

  lemma {:induction false} StepKeeps(curve: Curve, width: Extent, height: Extent, state: State, info: FindingInfo)
    ensures var after := ApplyOne(curve, width, height, state, info).state;
      && SafeSlides(state.slides, after.slides) && state.touched <= after.touched
      && OnlyTouchedDiffer(state.slides, after)
      && (forall key :: key in after.touched && key !in state.touched ==> KeyExists(after.slides, key))
  {
    if ApplyOne(curve, width, height, state, info).Applied() {
      var si := info.slideNum.value - 1;
      var k := BestMatch(state.slides[si], info.bbox.value, width, height, |state.slides[si]|).value;
      var rule := FirstRule(RULES, info).value;
      RuleEditSafe(curve, rule, state.slides[si], k);
      EditKeeps(state.slides, state.touched, si, k, RuleEdit(curve, rule, state.slides[si], k).shape);
    } else {
      UnappliedChangesNothing(curve, width, height, state, info);
      UnchangedIsSafe(state.slides);
    }
  }

  lemma {:induction false} SafeSlidesTransitive(a: seq<Slide>, b: seq<Slide>, c: seq<Slide>)
    requires SafeSlides(a, b) && SafeSlides(b, c)
    ensures SafeSlides(a, c)
  {
    forall i, k | 0 <= i < |a| && 0 <= k < |a[i]|
      ensures SafeEdit(a[i][k], c[i][k])
    {
      SafeEditTransitive(a[i][k], b[i][k], c[i][k]);
    }
    forall i | 0 <= i < |a|
      ensures EdgesFrom(a[i], c[i])
    {
      EdgesFromTransitive(a[i], b[i], c[i]);
    }
  }

  lemma {:induction false} ReplayKeeps(curve: Curve, deck: Deck, infos: seq<FindingInfo>)
    ensures var state := Replay(curve, deck, infos).state;
      && SafeSlides(deck.slides, state.slides)
      && OnlyTouchedDiffer(deck.slides, state)
      && (forall key :: key in state.touched ==> KeyExists(state.slides, key))
  {
    if infos == [] {
      UnchangedIsSafe(deck.slides);
    } else {
      var earlier := Replay(curve, deck, infos[..|infos| - 1]).state;
      var state := Replay(curve, deck, infos).state;
      ReplayKeeps(curve, deck, infos[..|infos| - 1]);
      StepKeeps(curve, deck.width, deck.height, earlier, infos[|infos| - 1]);
      SafeSlidesTransitive(deck.slides, earlier.slides, state.slides);
      forall key | key in state.touched
        ensures KeyExists(state.slides, key)
      {
        if key in earlier.touched {
          var slide := earlier.slides[key.0 - 1];
          var k :| 0 <= k < |slide| && slide[k].id == key.1;
          assert SafeEdit(slide[k], state.slides[key.0 - 1][k]);
          assert state.slides[key.0 - 1][k].id == key.1;
        }
      }
    }
  }

  lemma {:induction false} ReplayKeysInRange(curve: Curve, deck: Deck, infos: seq<FindingInfo>)
    ensures var state := Replay(curve, deck, infos).state;
      |state.slides| == |deck.slides| && forall key :: key in state.touched ==> 1 <= key.0 <= |state.slides|
  {
    ReplayKeeps(curve, deck, infos);
  }
}
