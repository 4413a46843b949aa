/** What the guarantees of the fixer rest on: exactly when the order of the findings is immaterial, and a deck that
    repeats a shape id. */
module FixLimits {
  import opened Wrappers
  import opened Taxonomy
  import opened Geometry
  import opened Slides
  import opened FixRules
  import opened PptxFixer
  import opened FixProperties
  import opened FixOrder

  const SIDE: Extent := 1000000

  /** A 100000 EMU square at the given corner. */
  function Square(id: int, left: int, top: int, text: Option<seq<Paragraph>>): Shape {
    Shape(id, Some(left), Some(top), Some(100000), Some(100000), text, None)
  }

  lemma {:induction false} UniqueOverlap(slide: Slide, bbox: BBox, k: nat)
    requires k < |slide| && MatchScore(slide[k], bbox, SIDE, SIDE) > 0.0
    requires forall i :: 0 <= i < |slide| && i != k ==> MatchScore(slide[i], bbox, SIDE, SIDE) == 0.0
    ensures BestMatch(slide, bbox, SIDE, SIDE, |slide|) == Some(k)
  {
    var best := BestMatch(slide, bbox, SIDE, SIDE, |slide|);
    assert best.Some?;
    assert MatchScore(slide[k], bbox, SIDE, SIDE) <= MatchScore(slide[best.value], bbox, SIDE, SIDE);
  }

  lemma {:induction false} UniqueTarget(slide: Slide, bbox: BBox, k: nat)
    requires k < |slide| && MatchScore(slide[k], bbox, SIDE, SIDE) > 0.0
    requires forall i :: 0 <= i < |slide| && i != k ==> MatchScore(slide[i], bbox, SIDE, SIDE) == 0.0
    ensures IsTarget(slide, bbox, SIDE, SIDE, k)
  {
  }

  predicate AxisMeets(o: real, len: real, at: int) {
    o < at as real / SIDE as real + 0.1 && at as real / SIDE as real < o + len
  }

  /** The box meets the square at that corner. */
  predicate Meets(bbox: BBox, left: int, top: int) {
    AxisMeets(bbox.x, bbox.w, left) && AxisMeets(bbox.y, bbox.h, top)
  }

  lemma {:induction false} SquareScore(bbox: BBox, id: int, left: int, top: int, text: Option<seq<Paragraph>>)
    requires PositiveArea(bbox) && 0 <= left <= SIDE && 0 <= top <= SIDE
    ensures var score := MatchScore(Square(id, left, top, text), bbox, SIDE, SIDE);
      if Meets(bbox, left, top) then score > 0.0 else score == 0.0
  {
    BoxIouFacts(bbox, ShapeBox(Square(id, left, top, text), SIDE, SIDE));
  }

  // ----- row order

  /** Two squares of a slide, far apart in height; both move within `REACH` of the left edge. */
  function PairSlide(a: int, c: int, text: Option<seq<Paragraph>>): Slide {
    [Square(1, a, 0, text), Square(2, c, 600000, None)]
  }

  const REACH := 20000

  /** A small white run on white. */
  const PALE_TEXT := Some([[Run(Some(100), Some(WHITE))]])

  /** A deck whose `n`-th and last slide is the given one. */
  function DeckWith(n: int, slide: Slide): Deck
    requires n >= 1
  {
    Deck(SIDE, SIDE, seq(n - 1, _ => []) + [slide])
  }

  const UPPER: BBox := Box(0.0, 0.0, 0.1, 0.1)
  const LOWER: BBox := Box(0.0, 0.6, 0.1, 0.1)
  /** Meets the upper square only as long as that stands at the left edge. */
  const SLIVER: BBox := Box(0.0, 0.0, 0.01, 0.1)
  const NOWHERE: BBox := Box(0.5, 0.3, 0.1, 0.1)

  function Asking(id: int, ask: Ask, bbox: BBox): FindingInfo {
    match ask.rule
    case MinFontSize => FindingInfo(id, Some(ask.slideNum), TYPOGRAPHY, "шрифт", Some(bbox), true)
    case Contrast => FindingInfo(id, Some(ask.slideNum), READABILITY, "контраст", Some(bbox), true)
    case Alignment => FindingInfo(id, Some(ask.slideNum), CONSISTENCY, "выравн", Some(bbox), true)
  }

  lemma {:induction false} AskingAsks(id: int, ask: Ask, bbox: BBox)
    ensures Asks(Asking(id, ask, bbox), ask) && FirstRule(RULES, Asking(id, ask, bbox)) == Some(ask.rule)
  {
    var info := Asking(id, ask, bbox);
    assert WordAt("шрифт", "шрифт", 0) && WordAt("контраст", "контраст", 0) && WordAt("выравн", "выравн", 0);
    FirstRuleIsIts(info, ask.rule);
  }

  lemma {:induction false} PairMatch(bbox: BBox, a: int, c: int, text: Option<seq<Paragraph>>)
    requires PositiveArea(bbox) && 0 <= a <= REACH && 0 <= c <= REACH
    ensures var best := BestMatch(PairSlide(a, c, text), bbox, SIDE, SIDE, 2);
      && (Meets(bbox, a, 0) && !Meets(bbox, c, 600000) ==> best == Some(0))
      && (!Meets(bbox, a, 0) && Meets(bbox, c, 600000) ==> best == Some(1))
      && (!Meets(bbox, a, 0) && !Meets(bbox, c, 600000) ==> best.None?)
  {
    SquareScore(bbox, 1, a, 0, text);
    SquareScore(bbox, 2, c, 600000, None);
    var s := PairSlide(a, c, text);
    if Meets(bbox, a, 0) && !Meets(bbox, c, 600000) {
      UniqueOverlap(s, bbox, 0);
    } else if !Meets(bbox, a, 0) && Meets(bbox, c, 600000) {
      UniqueOverlap(s, bbox, 1);
    }
  }

  lemma {:induction false} PairMeets(a: int, c: int)
    requires 0 <= a <= REACH && 0 <= c <= REACH
    ensures Meets(UPPER, a, 0) && !Meets(UPPER, c, 600000)
    ensures !Meets(LOWER, a, 0) && Meets(LOWER, c, 600000)
    ensures !Meets(NOWHERE, a, 0) && !Meets(NOWHERE, c, 600000)
    ensures !Meets(SLIVER, c, 600000) && (a == 0 ==> Meets(SLIVER, a, 0)) && (a == REACH ==> !Meets(SLIVER, a, 0))
  {
  }

  lemma {:induction false} PairMatches(a: int, c: int, text: Option<seq<Paragraph>>)
    requires 0 <= a <= REACH && 0 <= c <= REACH
    ensures var s := PairSlide(a, c, text);
      && BestMatch(s, UPPER, SIDE, SIDE, 2) == Some(0) && BestMatch(s, LOWER, SIDE, SIDE, 2) == Some(1)
      && BestMatch(s, NOWHERE, SIDE, SIDE, 2).None?
      && (a == 0 ==> BestMatch(s, SLIVER, SIDE, SIDE, 2) == Some(0))
      && (a == REACH ==> BestMatch(s, SLIVER, SIDE, SIDE, 2).None?)
  {
    PairMeets(a, c);
    assert BestMatch(PairSlide(a, c, text), UPPER, SIDE, SIDE, 2) == Some(0) by { PairMatch(UPPER, a, c, text); }
    assert BestMatch(PairSlide(a, c, text), LOWER, SIDE, SIDE, 2) == Some(1) by { PairMatch(LOWER, a, c, text); }
    PairMatch(NOWHERE, a, c, text);
    PairMatch(SLIVER, a, c, text);
  }

  lemma {:induction false} PairAlign(a: int, c: int, text: Option<seq<Paragraph>>)
    requires 0 <= a <= REACH && 0 <= c <= REACH
    ensures Align(PairSlide(a, c, text), 0).shape == Square(1, c, 0, text)
    ensures Align(PairSlide(a, c, text), 1).shape == Square(2, a, 600000, None)
  {
    var s := PairSlide(a, c, text);
    assert IsNearSibling(s, 0, Left, 1) <==> a != c;
    assert IsNearSibling(s, 1, Left, 0) <==> a != c;
    forall k | 0 <= k < 2
      ensures FirstNear(s[k := Snapped(s, k, Left)], k, Top, 0).None?
    {
    }
  }

  /** What a finding with a known target does to its slide. */
  lemma {:induction false} EffectAt(curve: Curve, slide: Slide, info: FindingInfo, k: Option<nat>, rule: RuleName)
    requires info.bbox.Some? && BestMatch(slide, info.bbox.value, SIDE, SIDE, |slide|) == k
    requires FirstRule(RULES, info) == Some(rule)
    ensures var effect := EffectOf(curve, SIDE, SIDE, slide, info);
      if k.None? then effect == Effect(slide, None)
      else k.value < |slide| && effect.slide == slide[k.value := RuleEdit(curve, rule, slide, k.value).shape]
  {
  }

  /** What each finding of the counterexample does to the pair, on whatever slide the pair is. */
  lemma {:induction false} UpperEffect(curve: Curve, a: int, c: int, text: Option<seq<Paragraph>>, id: int, ask: Ask)
    requires 0 <= a <= REACH && 0 <= c <= REACH && ask.rule.Alignment?
    ensures EffectOf(curve, SIDE, SIDE, PairSlide(a, c, text), Asking(id, ask, UPPER)).slide == PairSlide(c, c, text)
  {
    PairMatches(a, c, text);
    PairAlign(a, c, text);
    AskingAsks(id, ask, UPPER);
    EffectAt(curve, PairSlide(a, c, text), Asking(id, ask, UPPER), Some(0), Alignment);
  }

  lemma {:induction false} LowerEffect(curve: Curve, a: int, c: int, text: Option<seq<Paragraph>>, id: int, ask: Ask)
    requires 0 <= a <= REACH && 0 <= c <= REACH && ask.rule.Alignment?
    ensures EffectOf(curve, SIDE, SIDE, PairSlide(a, c, text), Asking(id, ask, LOWER)).slide == PairSlide(a, a, text)
  {
    PairMatches(a, c, text);
    PairAlign(a, c, text);
    AskingAsks(id, ask, LOWER);
    EffectAt(curve, PairSlide(a, c, text), Asking(id, ask, LOWER), Some(1), Alignment);
  }

  lemma {:induction false} TextEffectAt(curve: Curve, slide: Slide, info: FindingInfo, k: nat, rule: RuleName, after: Shape)
    requires info.bbox.Some? && BestMatch(slide, info.bbox.value, SIDE, SIDE, |slide|) == Some(k)
    requires FirstRule(RULES, info) == Some(rule) && !rule.Alignment?
    requires k < |slide| && TextEdit(curve, rule, slide[k]).shape == after
    ensures EffectOf(curve, SIDE, SIDE, slide, info).slide == slide[k := after]
  {
    EffectAt(curve, slide, info, Some(k), rule);
  }

  lemma {:induction false} SliverHits(curve: Curve, text: Option<seq<Paragraph>>, id: int, ask: Ask, edited: Option<seq<Paragraph>>)
    requires !ask.rule.Alignment? && TextEdit(curve, ask.rule, Square(1, 0, 0, text)).shape == Square(1, 0, 0, edited)
    ensures EffectOf(curve, SIDE, SIDE, PairSlide(0, REACH, text), Asking(id, ask, SLIVER)).slide == PairSlide(0, REACH, edited)
  {
    var s, info, after := PairSlide(0, REACH, text), Asking(id, ask, SLIVER), Square(1, 0, 0, edited);
    assert s[0 := after] == PairSlide(0, REACH, edited);
    assert BestMatch(s, SLIVER, SIDE, SIDE, |s|) == Some(0) by {
      PairMatches(0, REACH, text);
    }
    AskingAsks(id, ask, SLIVER);
    TextEffectAt(curve, s, info, 0, ask.rule, after);
  }

  lemma {:induction false} SliverMisses(curve: Curve, text: Option<seq<Paragraph>>, id: int, ask: Ask)
    ensures EffectOf(curve, SIDE, SIDE, PairSlide(REACH, REACH, text), Asking(id, ask, SLIVER)).slide == PairSlide(REACH, REACH, text)
  {
    PairMatches(REACH, REACH, text);
    AskingAsks(id, ask, SLIVER);
    EffectAt(curve, PairSlide(REACH, REACH, text), Asking(id, ask, SLIVER), None, ask.rule);
  }

  lemma {:induction false} NowhereEffect(curve: Curve, a: int, c: int, text: Option<seq<Paragraph>>, id: int, ask: Ask)
    requires 0 <= a <= REACH && 0 <= c <= REACH
    ensures EffectOf(curve, SIDE, SIDE, PairSlide(a, c, text), Asking(id, ask, NOWHERE)) == Effect(PairSlide(a, c, text), None)
  {
    PairMatches(a, c, text);
    AskingAsks(id, ask, NOWHERE);
    EffectAt(curve, PairSlide(a, c, text), Asking(id, ask, NOWHERE), None, ask.rule);
  }

  /** The state of the pair: where its squares stand and what the upper one says. */
  datatype Pair = Pair(a: int, c: int, text: Option<seq<Paragraph>>) {
    predicate InReach() { 0 <= a <= REACH && 0 <= c <= REACH }

    function Shapes(): Slide { PairSlide(a, c, text) }
  }

  lemma {:induction false} AfterOnPair(curve: Curve, n: int, state: State, info: FindingInfo, pair: Pair)
    requires n >= 1 && state.slides == DeckWith(n, pair.Shapes()).slides
    requires info.autoFixable && info.slideNum == Some(n) && info.bbox.Some?
    ensures After(curve, SIDE, SIDE, state, info).slides ==
            DeckWith(n, EffectOf(curve, SIDE, SIDE, pair.Shapes(), info).slide).slides
  {
    AfterIsEffect(curve, SIDE, SIDE, state, info);
    assert state.slides[n - 1] == pair.Shapes();
  }

  /** A finding that points nowhere leaves the pair alone, whatever slide and rule it names. */
  lemma {:induction false} AfterNowhere(curve: Curve, n: int, state: State, id: int, ask: Ask, pair: Pair)
    requires n >= 1 && state.slides == DeckWith(n, pair.Shapes()).slides && pair.InReach()
    ensures After(curve, SIDE, SIDE, state, Asking(id, ask, NOWHERE)) == state
  {
    var info := Asking(id, ask, NOWHERE);
    AfterIsEffect(curve, SIDE, SIDE, state, info);
    if Reaches(info, state.slides) {
      var si := ask.slideNum - 1;
      assert state.slides[si := state.slides[si]] == state.slides;
      if si == n - 1 {
        assert state.slides[si] == pair.Shapes();
        NowhereEffect(curve, pair.a, pair.c, pair.text, id, ask);
      } else {
        assert state.slides[si] == [];
        AskingAsks(id, ask, NOWHERE);
        EffectAt(curve, [], info, None, ask.rule);
      }
    }
  }

  /** From place `lo` to place `hi` of the list everything points nowhere. */
  lemma {:induction false} IdleStretch(curve: Curve, n: int, start: Pair, infos: seq<FindingInfo>, asks: seq<Ask>, lo: nat, hi: nat, pair: Pair)
    requires n >= 1 && |infos| == |asks| && lo <= hi <= |infos| && pair.InReach()
    requires forall m :: lo <= m < hi ==> infos[m] == Asking(infos[m].id, asks[m], NOWHERE)
    requires Final(curve, DeckWith(n, start.Shapes()), infos[..lo]).slides == DeckWith(n, pair.Shapes()).slides
    ensures Final(curve, DeckWith(n, start.Shapes()), infos[..hi]).slides == DeckWith(n, pair.Shapes()).slides
    decreases hi
  {
    if hi > lo {
      var deck, m := DeckWith(n, start.Shapes()), hi - 1;
      IdleStretch(curve, n, start, infos, asks, lo, m, pair);
      assert infos[..hi] == infos[..m] + [infos[m]];
      FinalSnoc(curve, deck, infos[..m], infos[m]);
      AfterNowhere(curve, n, Final(curve, deck, infos[..m]), infos[m].id, asks[m], pair);
    }
  }

  ghost predicate Moves(curve: Curve, n: int, info: FindingInfo, before: Pair, after: Pair) {
    && info.autoFixable && info.slideNum == Some(n) && info.bbox.Some? && before.InReach() && after.InReach()
    && EffectOf(curve, SIDE, SIDE, before.Shapes(), info).slide == after.Shapes()
  }

  lemma {:induction false} OneMove(curve: Curve, n: int, start: Pair, infos: seq<FindingInfo>, at: nat, before: Pair, after: Pair)
    requires n >= 1 && at < |infos| && Moves(curve, n, infos[at], before, after)
    requires Final(curve, DeckWith(n, start.Shapes()), infos[..at]).slides == DeckWith(n, before.Shapes()).slides
    ensures Final(curve, DeckWith(n, start.Shapes()), infos[..at + 1]).slides == DeckWith(n, after.Shapes()).slides
  {
    assert infos[..at + 1] == infos[..at] + [infos[at]];
    FinalSnoc(curve, DeckWith(n, start.Shapes()), infos[..at], infos[at]);
    AfterOnPair(curve, n, Final(curve, DeckWith(n, start.Shapes()), infos[..at]), infos[at], before);
  }

  ghost predicate OthersAimNowhere(infos: seq<FindingInfo>, asks: seq<Ask>, p: nat, q: nat) {
    |infos| == |asks| &&
    forall m :: 0 <= m < |infos| && m != p && m != q ==> infos[m] == Asking(infos[m].id, asks[m], NOWHERE)
  }

  lemma {:induction false} FirstMove(curve: Curve, n: int, infos: seq<FindingInfo>, asks: seq<Ask>, p: nat, q: nat,
                                     first: Pair, second: Pair)
    requires n >= 1 && p < q < |infos| && OthersAimNowhere(infos, asks, p, q)
    requires Moves(curve, n, infos[p], first, second)
    ensures Final(curve, DeckWith(n, first.Shapes()), infos[..q]).slides == DeckWith(n, second.Shapes()).slides
  {
    IdleStretch(curve, n, first, infos, asks, 0, p, first);
    OneMove(curve, n, first, infos, p, first, second);
    IdleStretch(curve, n, first, infos, asks, p + 1, q, second);
  }

  /** Only the findings at `p` and `q` do anything. */
  lemma {:induction false} TwoMoves(curve: Curve, n: int, infos: seq<FindingInfo>, asks: seq<Ask>, p: nat, q: nat,
                                    first: Pair, second: Pair, third: Pair)
    requires n >= 1 && p < q < |infos| && OthersAimNowhere(infos, asks, p, q)
    requires Moves(curve, n, infos[p], first, second) && Moves(curve, n, infos[q], second, third)
    ensures Final(curve, DeckWith(n, first.Shapes()), infos).slides == DeckWith(n, third.Shapes()).slides
  {
    FirstMove(curve, n, infos, asks, p, q, first, second);
    OneMove(curve, n, first, infos, q, second, third);
    IdleStretch(curve, n, first, infos, asks, q + 1, |infos|, third);
    assert infos[..|infos|] == infos;
  }

  /** The pair never hangs off its slide, so no fix of it rolls back. */
  lemma {:induction false} PairFits(curve: Curve, n: int, start: Pair, infos: seq<FindingInfo>, pair: Pair)
    requires n >= 1 && pair.InReach()
    requires Final(curve, DeckWith(n, start.Shapes()), infos).slides == DeckWith(n, pair.Shapes()).slides
    ensures Fixed(curve, DeckWith(n, start.Shapes()), infos).deck == DeckWith(n, pair.Shapes())
    ensures !Fixed(curve, DeckWith(n, start.Shapes()), infos).rolledBack
  {
    var deck := DeckWith(n, start.Shapes());
    RollsBackIffOffSlide(curve, deck, infos);
    var state := Final(curve, deck, infos);
    forall key | key in state.touched
      ensures OnSlide(state.slides[key.0 - 1][FirstWithId(state.slides[key.0 - 1], key.1).value], SIDE, SIDE)
    {
      assert state.slides[key.0 - 1] == if key.0 == n then pair.Shapes() else [];
    }
  }

  /** A text rule finds something to change in the pale text, and nothing else. */
  lemma {:induction false} PaleEdited(curve: Curve, rule: RuleName) returns (text: Option<seq<Paragraph>>)
    requires !rule.Alignment?
    ensures TextEdit(curve, rule, Square(1, 0, 0, PALE_TEXT)).shape == Square(1, 0, 0, text) && text != PALE_TEXT
  {
    var shape := Square(1, 0, 0, PALE_TEXT);
    var run := shape.text.value[0][0];
    text := TextEdit(curve, rule, shape).shape.text;
    if rule.MinFontSize? {
      assert text.value[0][0] == Raised(run);
    } else {
      assert RelativeLuminance(curve, WHITE) == 1.0;
      assert text.value[0][0] == Recolored(curve, WHITE, run);
    }
  }

  // ----- the counterexample for any list of asks with a clash

  function BoxFor(asks: seq<Ask>, p: nat, q: nat, m: nat): BBox
    requires m < |asks|
  {
    if m == p then UPPER
    else if m == q then (if asks[q].rule.Alignment? then LOWER else SLIVER)
    else NOWHERE
  }

  /** Findings with these asks: the alignment at `p` aims at the upper square, the one at `q` at the lower square
      if it too is an alignment and at the edge of the upper one otherwise, the others at nothing. */
  function Clashing(asks: seq<Ask>, p: nat, q: nat): (infos: seq<FindingInfo>)
    ensures |infos| == |asks|
  {
    seq(|asks|, m requires 0 <= m < |asks| => Asking(m, asks[m], BoxFor(asks, p, q, m)))
  }

  function Swapped<T>(xs: seq<T>, p: nat, q: nat): seq<T>
    requires p < |xs| && q < |xs|
  {
    xs[p := xs[q]][q := xs[p]]
  }

  lemma {:induction false} SwappedPermutes<T>(xs: seq<T>, p: nat, q: nat)
    requires p < |xs| && q < |xs|
    ensures multiset(Swapped(xs, p, q)) == multiset(xs)
  {
  }

  lemma {:induction false} UpperMoves(curve: Curve, n: int, pair: Pair, id: int)
    requires pair.InReach()
    ensures Moves(curve, n, Asking(id, Ask(n, Alignment), UPPER), pair, Pair(pair.c, pair.c, pair.text))
  {
    UpperEffect(curve, pair.a, pair.c, pair.text, id, Ask(n, Alignment));
  }

  lemma {:induction false} LowerMoves(curve: Curve, n: int, pair: Pair, id: int)
    requires pair.InReach()
    ensures Moves(curve, n, Asking(id, Ask(n, Alignment), LOWER), pair, Pair(pair.a, pair.a, pair.text))
  {
    LowerEffect(curve, pair.a, pair.c, pair.text, id, Ask(n, Alignment));
  }

  lemma {:induction false} SliverHitMoves(curve: Curve, n: int, id: int, rule: RuleName, edited: Option<seq<Paragraph>>)
    requires !rule.Alignment? && TextEdit(curve, rule, Square(1, 0, 0, PALE_TEXT)).shape == Square(1, 0, 0, edited)
    ensures Moves(curve, n, Asking(id, Ask(n, rule), SLIVER), Pair(0, REACH, PALE_TEXT), Pair(0, REACH, edited))
  {
    SliverHits(curve, PALE_TEXT, id, Ask(n, rule), edited);
  }

  lemma {:induction false} SliverMissMoves(curve: Curve, n: int, id: int, rule: RuleName)
    requires !rule.Alignment?
    ensures Moves(curve, n, Asking(id, Ask(n, rule), SLIVER), Pair(REACH, REACH, PALE_TEXT), Pair(REACH, REACH, PALE_TEXT))
  {
    SliverMisses(curve, PALE_TEXT, id, Ask(n, rule));
  }

  /** A text finding aimed at the sliver edits the upper square at the left edge and misses it at the other end. */
  lemma {:induction false} SliverMoves(curve: Curve, n: int, id: int, rule: RuleName) returns (text: Option<seq<Paragraph>>)
    requires !rule.Alignment?
    ensures text != PALE_TEXT
    ensures Moves(curve, n, Asking(id, Ask(n, rule), SLIVER), Pair(0, REACH, PALE_TEXT), Pair(0, REACH, text))
    ensures Moves(curve, n, Asking(id, Ask(n, rule), SLIVER), Pair(REACH, REACH, PALE_TEXT), Pair(REACH, REACH, PALE_TEXT))
  {
    text := PaleEdited(curve, rule);
    SliverHitMoves(curve, n, id, rule, text);
    SliverMissMoves(curve, n, id, rule);
  }

  /** Where the order with `y` first takes the pair, and that the other order leaves it elsewhere. */
  lemma {:induction false} ClashMoves(curve: Curve, n: int, x: FindingInfo, y: FindingInfo, rule: RuleName)
    returns (edited: Pair, last: Pair)
    requires x == Asking(x.id, Ask(n, Alignment), UPPER)
    requires y == Asking(y.id, Ask(n, rule), if rule.Alignment? then LOWER else SLIVER)
    ensures Moves(curve, n, x, Pair(0, REACH, PALE_TEXT), Pair(REACH, REACH, PALE_TEXT))
    ensures Moves(curve, n, y, Pair(REACH, REACH, PALE_TEXT), Pair(REACH, REACH, PALE_TEXT))
    ensures Moves(curve, n, y, Pair(0, REACH, PALE_TEXT), edited) && Moves(curve, n, x, edited, last)
    ensures last.a != REACH || last.text != PALE_TEXT
  {
    var start, stays := Pair(0, REACH, PALE_TEXT), Pair(REACH, REACH, PALE_TEXT);
    UpperMoves(curve, n, start, x.id);
    if rule.Alignment? {
      edited, last := Pair(0, 0, PALE_TEXT), Pair(0, 0, PALE_TEXT);
      LowerMoves(curve, n, start, y.id);
      LowerMoves(curve, n, stays, y.id);
      UpperMoves(curve, n, edited, x.id);
    } else {
      var text := SliverMoves(curve, n, y.id, rule);
      edited, last := Pair(0, REACH, text), Pair(REACH, REACH, text);
      UpperMoves(curve, n, edited, x.id);
    }
  }

  lemma {:induction false} PairsDiffer(n: int, one: Pair, other: Pair)
    requires n >= 1 && (one.a != other.a || one.text != other.text)
    ensures DeckWith(n, one.Shapes()) != DeckWith(n, other.Shapes())
  {
    assert DeckWith(n, one.Shapes()).slides[n - 1][0] != DeckWith(n, other.Shapes()).slides[n - 1][0];
  }

  lemma {:induction false} ClashingLists(asks: seq<Ask>, p: nat, q: nat)
    requires p < |asks| && q < |asks| && p != q
    ensures var infos := Clashing(asks, p, q);
      && OthersAimNowhere(infos, asks, p, q)
      && |Swapped(infos, p, q)| == |asks| && OthersAimNowhere(Swapped(infos, p, q), asks, p, q)
  {
  }

  /** Where the clashing findings leave the pair in the two orders. */
  lemma {:induction false} ClashFinals(curve: Curve, asks: seq<Ask>, p: nat, q: nat) returns (one: Pair, other: Pair)
    requires p < |asks| && q < |asks| && p != q && Clash(asks[p], asks[q]) && asks[p].rule.Alignment?
    ensures var deck := DeckWith(asks[p].slideNum, PairSlide(0, REACH, PALE_TEXT));
      var infos := Clashing(asks, p, q);
      && Final(curve, deck, infos).slides == DeckWith(asks[p].slideNum, one.Shapes()).slides
      && Final(curve, deck, Swapped(infos, p, q)).slides == DeckWith(asks[p].slideNum, other.Shapes()).slides
    ensures one.InReach() && other.InReach() && (one.a != other.a || one.text != other.text)
  {
    var n, infos := asks[p].slideNum, Clashing(asks, p, q);
    var swapped := Swapped(infos, p, q);
    var start, stays := Pair(0, REACH, PALE_TEXT), Pair(REACH, REACH, PALE_TEXT);
    ClashingLists(asks, p, q);
    var edited, last := ClashMoves(curve, n, infos[p], infos[q], asks[q].rule);
    if p < q {
      one, other := stays, last;
      TwoMoves(curve, n, infos, asks, p, q, start, stays, stays);
      TwoMoves(curve, n, swapped, asks, p, q, start, edited, last);
    } else {
      one, other := last, stays;
      TwoMoves(curve, n, swapped, asks, q, p, start, stays, stays);
      TwoMoves(curve, n, infos, asks, q, p, start, edited, last);
    }
  }

  /** Whatever slides and rules the findings of a list name: if two of them clash there are a deck and findings that
      name just these, for which swapping the two changes the fixed deck. */
  lemma {:induction false} ClashMakesOrderMatter(curve: Curve, asks: seq<Ask>, p: nat, q: nat)
    requires p < |asks| && q < |asks| && p != q && Clash(asks[p], asks[q]) && asks[p].rule.Alignment?
    ensures var deck := DeckWith(asks[p].slideNum, PairSlide(0, REACH, PALE_TEXT));
      var infos := Clashing(asks, p, q);
      Fixed(curve, deck, infos).deck != Fixed(curve, deck, Swapped(infos, p, q)).deck
  {
    var n, start := asks[p].slideNum, Pair(0, REACH, PALE_TEXT);
    var one, other := ClashFinals(curve, asks, p, q);
    PairFits(curve, n, start, Clashing(asks, p, q), one);
    PairFits(curve, n, start, Swapped(Clashing(asks, p, q), p, q), other);
    PairsDiffer(n, one, other);
  }

  // ----- exactly when the order is immaterial

  /** Findings with distinct ids that name exactly these slides and rules. */
  ghost predicate Realizes(infos: seq<FindingInfo>, asks: seq<Ask>) {
    && |infos| == |asks|
    && (forall i :: 0 <= i < |infos| ==> Asks(infos[i], asks[i]))
    && (forall i, j :: 0 <= i < j < |infos| ==> infos[i].id != infos[j].id)
  }

  /** No deck and no findings with these asks make the row order show. */
  ghost predicate OrderFree(curve: Curve, asks: seq<Ask>) {
    forall deck, infos, other :: Realizes(infos, asks) && multiset(infos) == multiset(other) ==>
      && Fixed(curve, deck, infos).deck == Fixed(curve, deck, other).deck
      && Fixed(curve, deck, infos).rolledBack == Fixed(curve, deck, other).rolledBack
  }

  lemma {:induction false} RealizedPeacefully(infos: seq<FindingInfo>, asks: seq<Ask>)
    requires Realizes(infos, asks) && forall i, j :: 0 <= i < |asks| && 0 <= j < |asks| && i != j ==> !Clash(asks[i], asks[j])
    ensures Peaceful(infos)
  {
    forall i, j | 0 <= i < |infos| && 0 <= j < |infos| && infos[i] != infos[j]
      ensures !Interfere(infos[i], infos[j])
    {
      if a, b :| Asks(infos[i], a) && Asks(infos[j], b) && Clash(a, b) {
        AsksOnce(infos[i], a, asks[i]);
        AsksOnce(infos[j], b, asks[j]);
        assert false;
      }
    }
  }

  lemma {:induction false} AsksOnce(info: FindingInfo, a: Ask, b: Ask)
    requires Asks(info, a) && Asks(info, b)
    ensures a == b
  {
    FirstRuleIsIts(info, a.rule);
    FirstRuleIsIts(info, b.rule);
  }

  /** Knowing of each selected finding only its slide and its rule, the order of the rows cannot matter exactly
      when no slide has an alignment together with another finding. */
  lemma {:induction false} OrderFreeIff(curve: Curve, asks: seq<Ask>)
    ensures OrderFree(curve, asks) <==>
            forall i, j :: 0 <= i < |asks| && 0 <= j < |asks| && i != j ==> !Clash(asks[i], asks[j])
  {
    if p, q :| 0 <= p < |asks| && 0 <= q < |asks| && p != q && Clash(asks[p], asks[q]) {
      if asks[p].rule.Alignment? {
        NotOrderFree(curve, asks, p, q);
      } else {
        NotOrderFree(curve, asks, q, p);
      }
    } else {
      forall deck, infos, other | Realizes(infos, asks) && multiset(infos) == multiset(other)
        ensures Fixed(curve, deck, infos).deck == Fixed(curve, deck, other).deck
        ensures Fixed(curve, deck, infos).rolledBack == Fixed(curve, deck, other).rolledBack
      {
        RealizedPeacefully(infos, asks);
        OrderIrrelevant(curve, deck, infos, other);
      }
    }
  }

  lemma {:induction false} ClashingRealizes(asks: seq<Ask>, p: nat, q: nat)
    ensures Realizes(Clashing(asks, p, q), asks)
  {
    var infos := Clashing(asks, p, q);
    forall i | 0 <= i < |infos|
      ensures Asks(infos[i], asks[i]) && infos[i].id == i
    {
      AskingAsks(i, asks[i], BoxFor(asks, p, q, i));
    }
  }

  lemma {:induction false} NotOrderFree(curve: Curve, asks: seq<Ask>, p: nat, q: nat)
    requires p < |asks| && q < |asks| && p != q && Clash(asks[p], asks[q]) && asks[p].rule.Alignment?
    ensures !OrderFree(curve, asks)
  {
    ClashingRealizes(asks, p, q);
    SwappedPermutes(Clashing(asks, p, q), p, q);
    ClashMakesOrderMatter(curve, asks, p, q);
  }

  // ----- distinct ids

  const SMALL_TEXT := Some([[Run(Some(100), None)]])

  /** Two shapes share an id; the second hangs off the right edge. */
  function Twins(): Slide {
    [Square(7, 0, 0, None), Square(7, 950000, 500000, SMALL_TEXT)]
  }

  const CORNER: BBox := Box(0.9, 0.5, 0.1, 0.1)

  lemma {:induction false} TwinScores(bbox: BBox)
    requires bbox == CORNER
    ensures MatchScore(Square(7, 0, 0, None), bbox, SIDE, SIDE) == 0.0
    ensures MatchScore(Square(7, 950000, 500000, SMALL_TEXT), bbox, SIDE, SIDE) > 0.0
  {
    assert !AxisMeets(bbox.x, bbox.w, 0);
    assert AxisMeets(bbox.x, bbox.w, 950000) && AxisMeets(bbox.y, bbox.h, 500000);
    SquareScore(bbox, 7, 0, 0, None);
    SquareScore(bbox, 7, 950000, 500000, SMALL_TEXT);
  }

  lemma {:induction false} SecondOfTwo(a: Shape, b: Shape, bbox: BBox)
    requires MatchScore(a, bbox, SIDE, SIDE) == 0.0 && MatchScore(b, bbox, SIDE, SIDE) > 0.0
    ensures IsTarget([a, b], bbox, SIDE, SIDE, 1)
  {
    UniqueTarget([a, b], bbox, 1);
  }

  lemma {:induction false} TwinMatch(bbox: BBox)
    requires bbox == CORNER
    ensures IsTarget(Twins(), bbox, SIDE, SIDE, 1)
  {
    TwinScores(bbox);
    SecondOfTwo(Square(7, 0, 0, None), Square(7, 950000, 500000, SMALL_TEXT), bbox);
  }

  lemma {:induction false} RaisedDiffers(shape: Shape)
    requires shape.text == SMALL_TEXT
    ensures RaiseFonts(shape).result.applied && RaiseFonts(shape).shape != shape
    ensures SafeEdit(shape, RaiseFonts(shape).shape) && RaiseFonts(shape).shape.left == shape.left
  {
    RuleEditSafe(LinearCurve, MinFontSize, [shape], 0);
    assert IsSmall(shape.text.value[0][0]);
    assert RaiseFonts(shape).shape.text.value[0][0] == Raised(shape.text.value[0][0]);
  }

  lemma {:induction false} TwinOutcome(curve: Curve, deck: Deck, info: FindingInfo)
    requires deck == Deck(SIDE, SIDE, [Twins()]) && info == Asking(1, Ask(1, MinFontSize), CORNER)
    ensures !Fixed(curve, deck, [info]).rolledBack
    ensures Fixed(curve, deck, [info]).deck.slides == WithShape(deck.slides, 0, 1, RaiseFonts(deck.slides[0][1]).shape)
  {
    var slide := deck.slides[0];
    TwinMatch(info.bbox.value);
    AskingAsks(1, Ask(1, MinFontSize), CORNER);
    assert FirstWithId(slide, slide[1].id) == Some(0);
    OneFindingKeptOffSlideIff(curve, deck, info, 1, MinFontSize);
  }

  /** With a repeated id the check looks at the first carrier only: this fix edits a shape that is off the slide
      and keeps the edit. */
  lemma {:induction false} RepeatedIdHidesAnOffSlideEdit(curve: Curve)
    ensures var outcome := Fixed(curve, Deck(SIDE, SIDE, [Twins()]), [Asking(1, Ask(1, MinFontSize), CORNER)]);
      && !outcome.rolledBack && |outcome.deck.slides| == 1 && |outcome.deck.slides[0]| == 2
      && outcome.deck.slides[0][1] != Twins()[1] && !OnSlide(outcome.deck.slides[0][1], SIDE, SIDE)
  {
    TwinOutcome(curve, Deck(SIDE, SIDE, [Twins()]), Asking(1, Ask(1, MinFontSize), CORNER));
    RaisedDiffers(Twins()[1]);
  }

  // ----- exactly when every kept edit lies on its slide

  ghost predicate HasIds(slides: seq<Slide>, ids: seq<seq<int>>) {
    && |slides| == |ids|
    && (forall i :: 0 <= i < |ids| ==> |slides[i]| == |ids[i]|)
    && (forall i, k :: 0 <= i < |ids| && 0 <= k < |ids[i]| ==> slides[i][k].id == ids[i][k])
  }

  ghost predicate DistinctPerSlide(ids: seq<seq<int>>) {
    forall i, j, k :: 0 <= i < |ids| && 0 <= j < k < |ids[i]| ==> ids[i][j] != ids[i][k]
  }

  /** No deck with these shape ids and no findings make the fixer keep a changed shape that is off its slide. */
  ghost predicate KeepsOnSlide(curve: Curve, ids: seq<seq<int>>) {
    forall deck: Deck, infos :: HasIds(deck.slides, ids) ==> ChangedAreOnSlide(deck, Fixed(curve, deck, infos).deck)
  }

  function Frameless(id: int): Shape {
    Shape(id, None, None, None, None, None, None)
  }

  /** The shapes with these ids, all without a frame but one: a square with small text hanging off the right edge. */
  function HangingSlide(ids: seq<int>, k: nat): (slide: Slide)
    ensures |slide| == |ids|
    ensures forall j :: 0 <= j < |ids| ==>
      slide[j] == if j == k then Square(ids[j], 950000, 500000, SMALL_TEXT) else Frameless(ids[j])
  {
    seq(|ids|, j requires 0 <= j < |ids| =>
      if j == k then Square(ids[j], 950000, 500000, SMALL_TEXT) else Frameless(ids[j]))
  }

  function HangingDeck(ids: seq<seq<int>>, i: nat, k: nat): (deck: Deck)
    ensures |deck.slides| == |ids|
    ensures forall s :: 0 <= s < |ids| ==> deck.slides[s] == HangingSlide(ids[s], if s == i then k else |ids[s]|)
    ensures deck.width == deck.height == SIDE
  {
    Deck(SIDE, SIDE, seq(|ids|, s requires 0 <= s < |ids| => HangingSlide(ids[s], if s == i then k else |ids[s]|)))
  }

  lemma {:induction false} HangingTarget(ids: seq<int>, k: nat, bbox: BBox)
    requires k < |ids| && bbox == CORNER
    ensures IsTarget(HangingSlide(ids, k), bbox, SIDE, SIDE, k)
  {
    HangingScore(ids[k], bbox);
    UniqueTarget(HangingSlide(ids, k), bbox, k);
  }

  lemma {:induction false} HangingScore(id: int, bbox: BBox)
    requires bbox == CORNER
    ensures MatchScore(Square(id, 950000, 500000, SMALL_TEXT), bbox, SIDE, SIDE) > 0.0
  {
    assert AxisMeets(bbox.x, bbox.w, 950000) && AxisMeets(bbox.y, bbox.h, 500000);
    SquareScore(bbox, id, 950000, 500000, SMALL_TEXT);
  }

  /** A later shape with an id of its slide: raising its fonts is kept though it hangs off. */
  lemma {:induction false} LaterCarrierHangs(curve: Curve, ids: seq<seq<int>>, i: nat, j: nat, k: nat)
    requires i < |ids| && j < k < |ids[i]| && ids[i][j] == ids[i][k]
    ensures HasIds(HangingDeck(ids, i, k).slides, ids)
    ensures !ChangedAreOnSlide(HangingDeck(ids, i, k),
                               Fixed(curve, HangingDeck(ids, i, k), [Asking(1, Ask(i + 1, MinFontSize), CORNER)]).deck)
  {
    HangingOutcome(curve, HangingDeck(ids, i, k), ids[i], Asking(1, Ask(i + 1, MinFontSize), CORNER), i, j, k);
  }

  lemma {:induction false} HangingOutcome(curve: Curve, deck: Deck, ids: seq<int>, info: FindingInfo, i: nat, j: nat, k: nat)
    requires deck.width == deck.height == SIDE && i < |deck.slides| && deck.slides[i] == HangingSlide(ids, k)
    requires j < k < |ids| && ids[j] == ids[k] && info == Asking(1, Ask(i + 1, MinFontSize), CORNER)
    ensures !ChangedAreOnSlide(deck, Fixed(curve, deck, [info]).deck)
  {
    var slide := deck.slides[i];
    HangingTarget(ids, k, info.bbox.value);
    AskingAsks(1, Ask(i + 1, MinFontSize), CORNER);
    RaisedDiffers(slide[k]);
    var first := FirstWithId(slide, slide[k].id).value;
    assert slide[j].id == slide[k].id;
    assert slide[first] == Frameless(ids[first]);
    OneFindingKeptOffSlideIff(curve, deck, info, k, MinFontSize);
    assert Fixed(curve, deck, [info]).deck.slides[i][k] == RaiseFonts(slide[k]).shape;
  }

  /** Knowing only the ids: every changed shape of every fix lies on its slide exactly when no slide repeats an id. */
  lemma {:induction false} DistinctIdsIff(curve: Curve, ids: seq<seq<int>>)
    ensures KeepsOnSlide(curve, ids) <==> DistinctPerSlide(ids)
  {
    if DistinctPerSlide(ids) {
      forall deck: Deck, infos | HasIds(deck.slides, ids)
        ensures ChangedAreOnSlide(deck, Fixed(curve, deck, infos).deck)
      {
        assert DistinctIds(deck.slides);
        AllChangedShapesOnSlide(curve, deck, infos);
      }
    } else {
      var i: nat, j: nat, k: nat :| i < |ids| && j < k < |ids[i]| && ids[i][j] == ids[i][k];
      LaterCarrierHangs(curve, ids, i, j, k);
    }
  }
}
