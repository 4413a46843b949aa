/** Short runs of one review: two that end with the same applied set and different decks, one after which a
    flag is set for a finding whose entry in the replay does not read `applied`, and one in which a second run of the
    worker loses an applied fix. */
module RowOrder {
  import opened Wrappers
  import opened Geometry
  import opened Slides
  import opened FixRules
  import opened PptxFixer
  import opened FixProperties
  import opened FixOrder
  import opened FixText
  import opened FixLimits
  import opened FixReview

  lemma {:induction false} FilterTwo<T>(a: T, b: T, keep: T -> bool)
    ensures Filter([a, b], keep) == (if keep(a) then [a] else []) + (if keep(b) then [b] else [])
  {
    assert [a] + [b] == [a, b];
    FilterConcat([a], [b], keep);
    FilterOne(a, keep);
    FilterOne(b, keep);
  }

  lemma {:induction false} SelectedOfTwo(a: FindingInfo, b: FindingInfo, ids: set<int>)
    requires b.id in ids
    ensures Selected([a, b], ids) == if a.id in ids then [a, b] else [b]
  {
    FilterTwo(a, b, (info: FindingInfo) => info.id in ids);
  }

  ghost predicate FirstTakesEffect(review: Review, infos: seq<FindingInfo>)
    requires infos != []
  {
    var outcome := Fixed(review.curve, review.original, infos);
    !outcome.rolledBack && outcome.applied[0]
  }

  /** A click whose finding comes first in the selection and applies. */
  lemma {:induction false} ClickApplies(review: Review, state: ReviewState, id: int, order: seq<FindingInfo>, selected: seq<FindingInfo>)
    requires WellKept(state) && multiset(order) == multiset(state.rows) && HasFixableRow(state.rows, id)
    requires id !in state.applied && state.originalAvailable
    requires Selected(order, state.applied + {id}) == selected && selected != [] && selected[0].id == id
    requires FirstTakesEffect(review, selected)
    ensures var after := Step(review, state, ApplyFix(id, order)).1;
      && WellKept(after) && after.rows == state.rows && after.originalAvailable && after.applied == state.applied + {id}
      && after.fixedDeck.Some? && after.fixedDeck.value.deck == Fixed(review.curve, review.original, selected).deck
  {
    ApplyFixKeepsCoherence(review, state, id, order);
    assert RowWithId(selected, id, 0) == Some(0);
  }

  /** The finding read second, clicked on a review with nothing applied. */
  lemma {:induction false} ClickSecond(review: Review, state: ReviewState, a: FindingInfo, b: FindingInfo) returns (after: ReviewState)
    requires WellKept(state) && state.applied == {} && state.originalAvailable && multiset([a, b]) == multiset(state.rows)
    requires a.id != b.id && HasFixableRow(state.rows, b.id) && FirstTakesEffect(review, [b])
    ensures after == Step(review, state, ApplyFix(b.id, [a, b])).1
    ensures WellKept(after) && after.rows == state.rows && after.originalAvailable && after.applied == {b.id}
  {
    SelectedOfTwo(a, b, {b.id});
    assert {} + {b.id} == {b.id};
    ClickApplies(review, state, b.id, [a, b], [b]);
    after := Step(review, state, ApplyFix(b.id, [a, b])).1;
  }

  /** Then the one read first. */
  lemma {:induction false} ClickFirst(review: Review, state: ReviewState, a: FindingInfo, b: FindingInfo) returns (after: ReviewState)
    requires WellKept(state) && state.applied == {b.id} && state.originalAvailable && multiset([a, b]) == multiset(state.rows)
    requires a.id != b.id && HasFixableRow(state.rows, a.id) && FirstTakesEffect(review, [a, b])
    ensures after == Step(review, state, ApplyFix(a.id, [a, b])).1
    ensures after.rows == state.rows && after.applied == {b.id, a.id} && after.fixedDeck.Some?
    ensures after.fixedDeck.value.deck == Fixed(review.curve, review.original, [a, b]).deck
  {
    SelectedOfTwo(a, b, {b.id, a.id});
    assert {b.id} + {a.id} == {b.id, a.id};
    ClickApplies(review, state, a.id, [a, b], [a, b]);
    after := Step(review, state, ApplyFix(a.id, [a, b])).1;
  }

  /** Two findings, the one read first clicked last: both end up applied when each takes effect read first. */
  lemma {:induction false} ReadFirstClickedLast(review: Review, rows: seq<FindingInfo>, a: FindingInfo, b: FindingInfo)
    requires multiset(rows) == multiset([a, b]) && a.id != b.id && a.autoFixable && b.autoFixable
    requires FirstTakesEffect(review, [b]) && FirstTakesEffect(review, [a, b])
    ensures var after := FixReview.Run(review, BLANK, [WorkerStores(rows), ApplyFix(b.id, [a, b]), ApplyFix(a.id, [a, b])]);
      && after.rows == rows && after.applied == {b.id, a.id} && after.fixedDeck.Some?
      && after.fixedDeck.value.deck == Fixed(review.curve, review.original, [a, b]).deck
  {
    PermutedIds([a, b], rows);
    assert BLANK.rows + rows == rows;
    var stored := Step(review, BLANK, WorkerStores(rows)).1;
    BothFixable(rows, a, b);
    var clicked := ClickSecond(review, stored, a, b);
    var after := ClickFirst(review, clicked, a, b);
    RunThree(review, WorkerStores(rows), ApplyFix(b.id, [a, b]), ApplyFix(a.id, [a, b]), stored, clicked);
  }

  lemma {:induction false} RunThree(review: Review, e1: Event, e2: Event, e3: Event, one: ReviewState, two: ReviewState)
    requires Enabled(BLANK, e1) && Enabled(one, e2) && Enabled(two, e3)
    requires one == Step(review, BLANK, e1).1 && two == Step(review, one, e2).1
    ensures FixReview.Run(review, BLANK, [e1, e2, e3]) == Step(review, two, e3).1
  {
    var events := [e1, e2, e3];
    assert events[..2][..1] == events[..1] == [e1] && events[..1][..0] == [];
    assert FixReview.Run(review, BLANK, events[..1]) == one;
    assert FixReview.Run(review, BLANK, events[..2]) == two;
  }

  lemma {:induction false} BothFixable(rows: seq<FindingInfo>, a: FindingInfo, b: FindingInfo)
    requires multiset(rows) == multiset([a, b]) && a.autoFixable && b.autoFixable
    ensures HasFixableRow(rows, a.id) && HasFixableRow(rows, b.id)
  {
    assert a == [a, b][0] && b == [a, b][1];
    assert a in multiset([a, b]) && b in multiset([a, b]);
    assert a in rows && b in rows;
  }

  /** What the two alignments do in the orders the runs below use. */
  lemma {:induction false} AlignmentOutcomes(curve: Curve, deck: Deck, x: FindingInfo, y: FindingInfo)
    requires deck == DeckWith(1, PairSlide(0, REACH, PALE_TEXT))
    requires x == Asking(1, Ask(1, Alignment), UPPER) && y == Asking(2, Ask(1, Alignment), LOWER)
    ensures var alone := Fixed(curve, deck, [x]); !alone.rolledBack && alone.applied[0]
    ensures var both := Fixed(curve, deck, [x, y]);
      !both.rolledBack && both.applied[0] && both.deck == DeckWith(1, PairSlide(REACH, REACH, PALE_TEXT))
    ensures var alone := Fixed(curve, deck, [y]); !alone.rolledBack && alone.applied[0]
    ensures var both := Fixed(curve, deck, [y, x]);
      !both.rolledBack && both.applied[0] && both.deck == DeckWith(1, PairSlide(0, 0, PALE_TEXT))
  {
    var start, right, left := Pair(0, REACH, PALE_TEXT), Pair(REACH, REACH, PALE_TEXT), Pair(0, 0, PALE_TEXT);
    UpperMoves(curve, 1, start, 1);
    LowerMoves(curve, 1, start, 2);
    LowerMoves(curve, 1, right, 2);
    UpperMoves(curve, 1, left, 1);
    PairsDiffer(1, right, start);
    LeftDiffers(start, left);
    MoveThenMove(curve, x, y, start, right, right);
    MoveThenMove(curve, y, x, start, left, left);
  }

  lemma {:induction false} LeftDiffers(start: Pair, left: Pair)
    requires start.c != left.c
    ensures DeckWith(1, start.Shapes()) != DeckWith(1, left.Shapes())
  {
    assert DeckWith(1, start.Shapes()).slides[0][1] != DeckWith(1, left.Shapes()).slides[0][1];
  }

  lemma {:induction false} MoveApplies(curve: Curve, first: FindingInfo, start: Pair, middle: Pair)
    requires Moves(curve, 1, first, start, middle) && DeckWith(1, start.Shapes()) != DeckWith(1, middle.Shapes())
    ensures ApplyOne(curve, SIDE, SIDE, State(DeckWith(1, start.Shapes()).slides, {}), first).Applied()
  {
    var state := State(DeckWith(1, start.Shapes()).slides, {});
    AfterOnPair(curve, 1, state, first, start);
    if !ApplyOne(curve, SIDE, SIDE, state, first).Applied() {
      UnappliedChangesNothing(curve, SIDE, SIDE, state, first);
    }
  }

  /** A finding that changes the deck, first in the list. */
  lemma {:induction false} FirstApplies(curve: Curve, first: FindingInfo, infos: seq<FindingInfo>, start: Pair, middle: Pair)
    requires Moves(curve, 1, first, start, middle) && DeckWith(1, start.Shapes()) != DeckWith(1, middle.Shapes())
    requires infos != [] && infos[0] == first
    ensures Replay(curve, DeckWith(1, start.Shapes()), infos).applied[0]
  {
    AppliedAt(curve, DeckWith(1, start.Shapes()), infos, 0);
    assert infos[..0] == [];
    MoveApplies(curve, first, start, middle);
  }

  /** Two findings in turn, the first of which changes the deck. */
  lemma {:induction false} MoveThenMove(curve: Curve, first: FindingInfo, second: FindingInfo, start: Pair, middle: Pair, last: Pair)
    requires Moves(curve, 1, first, start, middle) && Moves(curve, 1, second, middle, last)
    requires DeckWith(1, start.Shapes()) != DeckWith(1, middle.Shapes())
    ensures var alone := Fixed(curve, DeckWith(1, start.Shapes()), [first]); !alone.rolledBack && alone.applied[0]
    ensures var both := Fixed(curve, DeckWith(1, start.Shapes()), [first, second]);
      !both.rolledBack && both.applied[0] && both.deck == DeckWith(1, last.Shapes())
  {
    MoveFinals(curve, first, second, start, middle, last);
    FirstApplies(curve, first, [first], start, middle);
    FirstApplies(curve, first, [first, second], start, middle);
    PairFits(curve, 1, start, [first], middle);
    PairFits(curve, 1, start, [first, second], last);
  }

  lemma {:induction false} MoveFinals(curve: Curve, first: FindingInfo, second: FindingInfo, start: Pair, middle: Pair, last: Pair)
    requires Moves(curve, 1, first, start, middle) && Moves(curve, 1, second, middle, last)
    ensures Final(curve, DeckWith(1, start.Shapes()), [first]).slides == DeckWith(1, middle.Shapes()).slides
    ensures Final(curve, DeckWith(1, start.Shapes()), [first, second]).slides == DeckWith(1, last.Shapes()).slides
  {
    var infos := [first, second];
    assert infos[..0] == [] && infos[..1] == [first] && infos[..2] == infos;
    OneMove(curve, 1, start, infos, 0, start, middle);
    OneMove(curve, 1, start, infos, 1, middle, last);
  }

  lemma {:induction false} BothOrders(review: Review, x: FindingInfo, y: FindingInfo)
    requires x.id != y.id && x.autoFixable && y.autoFixable
    requires FirstTakesEffect(review, [x]) && FirstTakesEffect(review, [x, y])
    requires FirstTakesEffect(review, [y]) && FirstTakesEffect(review, [y, x])
    requires Fixed(review.curve, review.original, [x, y]).deck != Fixed(review.curve, review.original, [y, x]).deck
    ensures var one := FixReview.Run(review, BLANK, [WorkerStores([x, y]), ApplyFix(y.id, [x, y]), ApplyFix(x.id, [x, y])]);
      var other := FixReview.Run(review, BLANK, [WorkerStores([x, y]), ApplyFix(x.id, [y, x]), ApplyFix(y.id, [y, x])]);
      && one.rows == other.rows && one.applied == other.applied == {x.id, y.id}
      && one.fixedDeck.Some? && other.fixedDeck.Some? && one.fixedDeck.value.deck != other.fixedDeck.value.deck
  {
    ReadFirstClickedLast(review, [x, y], x, y);
    assert multiset([x, y]) == multiset([y, x]);
    ReadFirstClickedLast(review, [x, y], y, x);
  }

  /** One review, two runs. In each the rows come back in one order throughout and both findings end up applied;
      the stored decks differ, because the orders do. */
  lemma {:induction false} SameSetDifferentDecks(curve: Curve)
    ensures var x, y := Asking(1, Ask(1, Alignment), UPPER), Asking(2, Ask(1, Alignment), LOWER);
      var review := Review(curve, DeckWith(1, PairSlide(0, REACH, PALE_TEXT)));
      var one := FixReview.Run(review, BLANK, [WorkerStores([x, y]), ApplyFix(y.id, [x, y]), ApplyFix(x.id, [x, y])]);
      var other := FixReview.Run(review, BLANK, [WorkerStores([x, y]), ApplyFix(x.id, [y, x]), ApplyFix(y.id, [y, x])]);
      && one.rows == other.rows && one.applied == other.applied == {x.id, y.id}
      && one.fixedDeck.Some? && other.fixedDeck.Some? && one.fixedDeck.value.deck != other.fixedDeck.value.deck
  {
    var x, y := Asking(1, Ask(1, Alignment), UPPER), Asking(2, Ask(1, Alignment), LOWER);
    var review := Review(curve, DeckWith(1, PairSlide(0, REACH, PALE_TEXT)));
    AlignmentOutcomes(curve, review.original, x, y);
    PairsDiffer(1, Pair(REACH, REACH, PALE_TEXT), Pair(0, 0, PALE_TEXT));
    BothOrders(review, x, y);
  }

  // ----- a flag whose finding no longer takes effect

  /** A finding that asks for larger fonts on the upper square. */
  function Larger(id: int): FindingInfo {
    Asking(id, Ask(1, MinFontSize), UPPER)
  }

  lemma {:induction false} LargerAims(deck: Deck, id: int)
    requires deck == DeckWith(1, PairSlide(0, REACH, PALE_TEXT))
    ensures TextOnly(Larger(id)) && AimsAt(deck, Larger(id), 1, 0, MinFontSize)
  {
    AskingAsks(id, Ask(1, MinFontSize), UPPER);
    PairMatches(0, REACH, PALE_TEXT);
    assert deck.slides[0] == PairSlide(0, REACH, PALE_TEXT);
  }

  lemma {:induction false} PaleNeedsSize(curve: Curve)
    ensures Needs(curve, MinFontSize, Square(1, 0, 0, PALE_TEXT))
  {
    assert IsSmall(PALE_TEXT.value[0][0]);
  }

  lemma {:induction false} StartOnSlide(deck: Deck)
    requires deck == DeckWith(1, PairSlide(0, REACH, PALE_TEXT))
    ensures AllOnSlide(deck) && deck.slides[0][0] == Square(1, 0, 0, PALE_TEXT)
  {
  }

  ghost predicate AsksInNeed(curve: Curve, deck: Deck, info: FindingInfo, n: int, k: nat, rule: RuleName) {
    && TextOnly(info) && AllOnSlide(deck) && !rule.Alignment? && 1 <= n <= |deck.slides| && k < |deck.slides[n - 1]|
    && AimsAt(deck, info, n, k, rule)
    && Needs(curve, rule, deck.slides[n - 1][k]) && !NeverSettles(curve, rule, deck.slides[n - 1][k])
  }

  /** Findings that ask the same of one shape, on a deck with every shape on its slide. */
  lemma {:induction false} FirstOfSame(curve: Curve, deck: Deck, infos: seq<FindingInfo>, n: int, k: nat, rule: RuleName)
    requires infos != [] && forall j :: 0 <= j < |infos| ==> AsksInNeed(curve, deck, infos[j], n, k, rule)
    ensures FirstTakesEffect(Review(curve, deck), infos) && Replay(curve, deck, infos).applied[0]
    ensures forall i :: 0 < i < |infos| ==> !Replay(curve, deck, infos).applied[i]
  {
    assert AsksInNeed(curve, deck, infos[0], n, k, rule);
    TextNeverRollsBack(curve, deck, infos);
    forall i | 0 <= i < |infos|
      ensures Replay(curve, deck, infos).applied[i] <==> i == 0
    {
      OnlyFirstOfSame(curve, deck, infos, i, n, k, rule);
    }
  }

  lemma {:induction false} FirstOfTwo(curve: Curve, deck: Deck, a: FindingInfo, b: FindingInfo, n: int, k: nat, rule: RuleName)
    requires AsksInNeed(curve, deck, a, n, k, rule) && AsksInNeed(curve, deck, b, n, k, rule)
    ensures FirstTakesEffect(Review(curve, deck), [b]) && FirstTakesEffect(Review(curve, deck), [a, b])
    ensures Replay(curve, deck, [a, b]).applied[0] && !Replay(curve, deck, [a, b]).applied[1]
  {
    FirstOfSame(curve, deck, [b], n, k, rule);
    FirstOfSame(curve, deck, [a, b], n, k, rule);
  }

  lemma {:induction false} LargerInNeed(curve: Curve, deck: Deck, id: int)
    requires deck == DeckWith(1, PairSlide(0, REACH, PALE_TEXT))
    ensures AsksInNeed(curve, deck, Larger(id), 1, 0, MinFontSize)
  {
    LargerAims(deck, id);
    StartOnSlide(deck);
    PaleNeedsSize(curve);
  }

  /** Two font findings on one shape, the one read second clicked first: both flags end up set, and in the replay
      that gives the stored deck the second finding is skipped. */
  lemma {:induction false} FlagWithoutEffect(curve: Curve)
    ensures var review, a, b := Review(curve, DeckWith(1, PairSlide(0, REACH, PALE_TEXT))), Larger(1), Larger(2);
      var after := FixReview.Run(review, BLANK, [WorkerStores([a, b]), ApplyFix(b.id, [a, b]), ApplyFix(a.id, [a, b])]);
      && after.applied == {b.id, a.id} && after.fixedDeck.Some?
      && after.fixedDeck.value.deck == Fixed(curve, review.original, [a, b]).deck
      && Replay(curve, review.original, [a, b]).applied[0] && !Replay(curve, review.original, [a, b]).applied[1]
  {
    var review, a, b := Review(curve, DeckWith(1, PairSlide(0, REACH, PALE_TEXT))), Larger(1), Larger(2);
    LargerInNeed(curve, review.original, a.id);
    LargerInNeed(curve, review.original, b.id);
    FirstOfTwo(curve, review.original, a, b, 1, 0, MinFontSize);
    ReadFirstClickedLast(review, [a, b], a, b);
  }

  // ----- a worker that runs again

  lemma {:induction false} FontsGrow(curve: Curve, deck: Deck, a: FindingInfo)
    requires AsksInNeed(curve, deck, a, 1, 0, MinFontSize)
    ensures Fixed(curve, deck, [a]).deck != deck
  {
    TextNeverRollsBack(curve, deck, [a]);
    NeedAfterAll(curve, deck, [a], 1, 0, MinFontSize);
    assert AimsAt(deck, [a][0], 1, 0, MinFontSize);
  }

  lemma {:induction false} OnlyPermutation(a: FindingInfo, xs: seq<FindingInfo>)
    requires multiset(xs) == multiset([a])
    ensures xs == [a]
  {
    assert |xs| == |multiset(xs)| == |multiset([a])| == 1;
    assert xs[0] in multiset([a]);
  }

  lemma {:induction false} SelectedOfOne(a: FindingInfo, ids: set<int>)
    requires a.id in ids
    ensures Selected([a], ids) == [a]
  {
    FilterOne(a, (info: FindingInfo) => info.id in ids);
  }

  /** The only finding, clicked. */
  lemma {:induction false} ClickOnly(review: Review, state: ReviewState, a: FindingInfo) returns (after: ReviewState)
    requires WellKept(state) && state.applied == {} && state.originalAvailable && state.rows == [a]
    requires a.autoFixable && FirstTakesEffect(review, [a])
    ensures Happens(review, state, ApplyFix(a.id, [a]), after)
    ensures WellKept(after) && after.rows == [a] && after.originalAvailable && after.applied == {a.id}
  {
    SelectedOfOne(a, {a.id});
    assert {} + {a.id} == {a.id};
    assert state.rows[0] == a;
    ClickApplies(review, state, a.id, [a], [a]);
    after := Step(review, state, ApplyFix(a.id, [a])).1;
  }

  ghost predicate Happens(review: Review, state: ReviewState, event: Event, after: ReviewState) {
    Enabled(state, event) && after == Step(review, state, event).1
  }

  lemma {:induction false} ThreeHappen(review: Review, e1: Event, e2: Event, e3: Event, one: ReviewState, two: ReviewState, three: ReviewState)
    requires Happens(review, BLANK, e1, one) && Happens(review, one, e2, two) && Happens(review, two, e3, three)
    ensures FixReview.Run(review, BLANK, [e1, e2, e3]) == three
  {
    RunThree(review, e1, e2, e3, one, two);
  }

  /** A worker that finishes. */
  lemma {:induction false} StoreFound(review: Review, state: ReviewState, found: seq<FindingInfo>, rows: seq<FindingInfo>)
    returns (after: ReviewState)
    requires WellKept(state) && state.originalAvailable && state.rows + found == rows && DistinctRowIds(rows)
    ensures Happens(review, state, WorkerStores(found), after)
    ensures WellKept(after) && after.rows == rows && after.applied == state.applied && after.originalAvailable
    ensures after.fixedDeck.Some? && after.fixedDeck.value.deck == review.original
  {
    WorkerKeeps(state, found);
    after := Step(review, state, WorkerStores(found)).1;
  }

  lemma {:induction false} TwoRows(a: FindingInfo, b: FindingInfo)
    requires a.id != b.id
    ensures [a] + [b] == [a, b] && DistinctRowIds([a, b])
  {
  }

  /** After two events, the worker runs again and finds another finding. */
  lemma {:induction false} WorkerAgain(review: Review, e1: Event, e2: Event, one: ReviewState, two: ReviewState, a: FindingInfo, b: FindingInfo)
    returns (after: ReviewState)
    requires Happens(review, BLANK, e1, one) && Happens(review, one, e2, two)
    requires WellKept(two) && two.originalAvailable && two.rows == [a] && a.id != b.id
    ensures after == FixReview.Run(review, BLANK, [e1, e2, WorkerStores([b])])
    ensures after.rows == [a, b] && after.applied == two.applied
    ensures after.fixedDeck.Some? && after.fixedDeck.value.deck == review.original
  {
    TwoRows(a, b);
    after := StoreFound(review, two, [b], [a, b]);
    ThreeHappen(review, e1, e2, WorkerStores([b]), one, two, after);
  }

  /** A finding is stored, clicked and applied, and the worker then runs again. */
  lemma {:induction false} ClickThenWorker(review: Review, a: FindingInfo, b: FindingInfo) returns (after: ReviewState)
    requires a.id != b.id && a.autoFixable && FirstTakesEffect(review, [a])
    ensures after == FixReview.Run(review, BLANK, [WorkerStores([a]), ApplyFix(a.id, [a]), WorkerStores([b])])
    ensures after.rows == [a, b] && after.applied == {a.id}
    ensures after.fixedDeck.Some? && after.fixedDeck.value.deck == review.original
  {
    var stored := StoreFound(review, BLANK, [a], [a]);
    var clicked := ClickOnly(review, stored, a);
    after := WorkerAgain(review, WorkerStores([a]), ApplyFix(a.id, [a]), stored, clicked, a, b);
  }

  lemma {:induction false} NotTheFix(review: Review, state: ReviewState, a: FindingInfo, b: FindingInfo, order: seq<FindingInfo>)
    requires a.id != b.id && state.rows == [a, b] && state.applied == {a.id} && multiset(order) == multiset([a, b])
    requires state.fixedDeck.Some? && state.fixedDeck.value.deck == review.original
    requires Fixed(review.curve, review.original, [a]).deck != review.original
    ensures !Coherent(review, state, order)
  {
    var keep := (info: FindingInfo) => info.id in state.applied;
    FilterTwo(a, b, keep);
    FilterPermutes(order, [a, b], keep);
    OnlyPermutation(a, Selected(order, state.applied));
  }

  /** The first finding's larger fonts are applied; the worker runs again. The flag is still set, the stored deck is
      the original, and in no reading order is that the fix of the applied set. */
  lemma {:induction false} RedeliveryLosesAFix(curve: Curve)
    ensures var review, a, b := Review(curve, DeckWith(1, PairSlide(0, REACH, PALE_TEXT))), Larger(1), Larger(2);
      var after := FixReview.Run(review, BLANK, [WorkerStores([a]), ApplyFix(a.id, [a]), WorkerStores([b])]);
      && after.applied == {a.id} && after.fixedDeck.Some? && after.fixedDeck.value.deck == review.original
      && forall order :: !Coherent(review, after, order)
  {
    var review, a, b := Review(curve, DeckWith(1, PairSlide(0, REACH, PALE_TEXT))), Larger(1), Larger(2);
    LargerInNeed(curve, review.original, a.id);
    LargerInNeed(curve, review.original, b.id);
    FirstOfTwo(curve, review.original, b, a, 1, 0, MinFontSize);
    FontsGrow(curve, review.original, a);
    var after := ClickThenWorker(review, a, b);
    forall order | multiset(order) == multiset([a, b])
      ensures !Coherent(review, after, order)
    {
      NotTheFix(review, after, a, b, order);
    }
  }
}
