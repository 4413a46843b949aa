/** Point-apply: every call regenerates the stored deck from the original and the set of applied findings. */
module FixReview {
  import opened Wrappers
  import opened Geometry
  import opened Slides
  import opened FixRules
  import opened PptxFixer
  import opened FixProperties
  import opened FixOrder
  import opened FixText

  /** What never changes about a review. */
  datatype Review = Review(curve: Curve, original: Deck)

  datatype Asset = Asset(deck: Deck, version: nat)

  /** What does: its findings, the ids of those with the applied flag set, the stored fixed deck, and whether the
      original can still be read. */
  datatype ReviewState = ReviewState(
    rows: seq<FindingInfo>, applied: set<int>, fixedDeck: Option<Asset>, originalAvailable: bool
  )

  const BLANK := ReviewState([], {}, None, true)

  /** A worker that finishes stores its findings, none of them applied, and a copy of the original; if its job is
      delivered again so does the second run. A click names a finding, and reads the rows in some order. Either
      stored file may expire. */
  datatype Event =
    | WorkerStores(found: seq<FindingInfo>)
    | ApplyFix(findingId: int, order: seq<FindingInfo>)
    | OriginalGone
    | FixedGone

  datatype Response = NotFound | AlreadyApplied | Regenerated | NoResponse

  predicate DistinctRowIds(rows: seq<FindingInfo>) {
    forall i, j :: 0 <= i < j < |rows| ==> rows[i].id != rows[j].id
  }

  predicate Enabled(state: ReviewState, event: Event) {
    match event
    case WorkerStores(found) => state.originalAvailable && DistinctRowIds(state.rows + found)
    case ApplyFix(_, order) => multiset(order) == multiset(state.rows)
    case _ => true
  }

  function RowWithId(rows: seq<FindingInfo>, id: int, from: nat): (k: Option<nat>)
    requires from <= |rows|
    ensures k.Some? ==> from <= k.value < |rows| && rows[k.value].id == id
    ensures k.None? ==> forall i :: from <= i < |rows| ==> rows[i].id != id
    decreases |rows| - from
  {
    if from == |rows| then None
    else if rows[from].id == id then Some(from)
    else RowWithId(rows, id, from + 1)
  }

  /** The rows with these ids, in the order they were read. */
  function Selected(order: seq<FindingInfo>, ids: set<int>): seq<FindingInfo> {
    Filter(order, (info: FindingInfo) => info.id in ids)
  }

  function Refreshed(stored: Option<Asset>, deck: Deck): Option<Asset> {
    Some(Asset(deck, if stored.None? then 1 else stored.value.version + 1))
  }

  function Step(review: Review, state: ReviewState, event: Event): (Response, ReviewState) {
    match event
    case WorkerStores(found) =>
      (NoResponse, state.(rows := state.rows + found, fixedDeck := Refreshed(state.fixedDeck, review.original)))
    case OriginalGone => (NoResponse, state.(originalAvailable := false))
    case FixedGone => (NoResponse, state.(fixedDeck := None))
    case ApplyFix(id, order) =>
      var k := RowWithId(state.rows, id, 0);
      if k.None? || !state.rows[k.value].autoFixable then (NotFound, state)
      else if id in state.applied then (AlreadyApplied, state)
      else if !state.originalAvailable then (NotFound, state)
      else (Regenerated, Regenerate(review, state, id, order))
  }

  /** The applied set once the fixer has run on the selection: a rollback clears every flag, otherwise only finding
      `id` can change, to whether it applied. */
  function AppliedAfter(selected: seq<FindingInfo>, outcome: FixOutcome, id: int, applied: set<int>): set<int>
    requires |outcome.applied| == |selected|
  {
    var place := RowWithId(selected, id, 0);
    if outcome.rolledBack then {}
    else if place.Some? && outcome.applied[place.value] then applied + {id}
    else applied
  }

  /** Fix the original with the applied findings and finding `id`. */
  function Regenerate(review: Review, state: ReviewState, id: int, order: seq<FindingInfo>): ReviewState {
    var selected := Selected(order, state.applied + {id});
    var outcome := Fixed(review.curve, review.original, selected);
    state.(applied := AppliedAfter(selected, outcome, id, state.applied),
           fixedDeck := Refreshed(state.fixedDeck, outcome.deck))
  }

  // ----- selecting

  lemma {:induction false} PermutedIds(one: seq<FindingInfo>, other: seq<FindingInfo>)
    requires DistinctRowIds(one) && multiset(one) == multiset(other)
    ensures DistinctRowIds(other)
  {
    forall i, j | 0 <= i < j < |other|
      ensures other[i].id != other[j].id
    {
      TwoPlaces(other, i, j);
      assert other[i] in multiset(one) && other[j] in multiset(one);
      var a :| 0 <= a < |one| && one[a] == other[i];
      var b :| 0 <= b < |one| && one[b] == other[j];
      if a == b {
        assert multiset(one)[one[a]] >= 2;
        OnePlace(one, a);
      }
    }
  }

  lemma {:induction false} TwoPlaces<T>(xs: seq<T>, i: nat, j: nat)
    requires i < j < |xs|
    ensures xs[i] == xs[j] ==> multiset(xs)[xs[i]] >= 2
  {
    assert xs == xs[..j] + [xs[j]] + xs[j + 1..];
    assert multiset(xs) == multiset(xs[..j]) + multiset{xs[j]} + multiset(xs[j + 1..]);
    assert xs[..j][i] == xs[i];
    assert xs[i] in multiset(xs[..j]);
  }

  lemma {:induction false} OnePlace(rows: seq<FindingInfo>, a: nat)
    requires DistinctRowIds(rows) && a < |rows|
    ensures multiset(rows)[rows[a]] == 1
  {
    assert rows == rows[..a] + [rows[a]] + rows[a + 1..];
    assert multiset(rows) == multiset(rows[..a]) + multiset{rows[a]} + multiset(rows[a + 1..]);
    assert rows[a] !in rows[..a] && rows[a] !in rows[a + 1..];
    assert rows[a] !in multiset(rows[..a]) && rows[a] !in multiset(rows[a + 1..]);
  }

  lemma {:induction false} SelectedIds(order: seq<FindingInfo>, ids: set<int>)
    requires DistinctRowIds(order)
    ensures DistinctRowIds(Selected(order, ids))
  {
    if order != [] {
      var front, last := order[..|order| - 1], order[|order| - 1];
      SelectedIds(front, ids);
      forall i | 0 <= i < |Selected(front, ids)|
        ensures Selected(front, ids)[i].id != last.id
      {
        assert Selected(front, ids)[i] in front;
      }
    }
  }

  lemma {:induction false} SelectedSame(order: seq<FindingInfo>, ids: set<int>, id: int)
    requires forall i :: 0 <= i < |order| ==> order[i].id != id
    ensures Selected(order, ids + {id}) == Selected(order, ids)
  {
    if order != [] {
      SelectedSame(order[..|order| - 1], ids, id);
    }
  }

  /** Leaving one id out drops its finding. */
  lemma {:induction false} SelectedDrop(order: seq<FindingInfo>, ids: set<int>, id: int, place: nat)
    requires DistinctRowIds(order) && id !in ids
    requires place < |Selected(order, ids + {id})| && Selected(order, ids + {id})[place].id == id
    ensures Selected(order, ids) == Without(Selected(order, ids + {id}), place)
    decreases |order|
  {
    var front, last := order[..|order| - 1], order[|order| - 1];
    var before := Selected(front, ids + {id});
    SelectedIds(order, ids + {id});
    if last.id == id {
      SelectedSame(front, ids, id);
      assert Selected(order, ids + {id})[|before|].id == id;
      assert place == |before|;
      assert Without(before + [last], place) == before;
    } else {
      assert place < |before|;
      SelectedDrop(front, ids, id, place);
      assert Without(before + [last], place) == Without(before, place) + [last];
    }
  }

  lemma {:induction false} FilterPermutes<T>(one: seq<T>, other: seq<T>, keep: T -> bool)
    requires multiset(one) == multiset(other)
    ensures multiset(Filter(one, keep)) == multiset(Filter(other, keep))
    decreases |one|
  {
    if one == [] {
      assert |other| == |multiset(other)| == |multiset(one)| == 0;
    } else {
      var front, x := one[..|one| - 1], one[|one| - 1];
      assert one == front + [x];
      var a, b := TakeOut(front, x, other);
      FilterPermutes(front, a + b, keep);
      FilterConcat(a, b, keep);
      FilterConcat(a + [x], b, keep);
      FilterConcat(a, [x], keep);
      FilterOne(x, keep);
    }
  }

  // ----- the invariant

  ghost predicate HasFixableRow(rows: seq<FindingInfo>, id: int) {
    exists k :: 0 <= k < |rows| && rows[k].id == id && rows[k].autoFixable
  }

  /** Ids are distinct and only auto-fixable findings carry the flag. */
  ghost predicate WellKept(state: ReviewState) {
    DistinctRowIds(state.rows) && forall id :: id in state.applied ==> HasFixableRow(state.rows, id)
  }

  /** The stored deck is what fixing the original with exactly the applied findings gives when the rows are read in
      this order, and that fix held. */
  ghost predicate Coherent(review: Review, state: ReviewState, order: seq<FindingInfo>) {
    && multiset(order) == multiset(state.rows)
    && var replayed := Fixed(review.curve, review.original, Selected(order, state.applied));
       !replayed.rolledBack && state.fixedDeck.Some? && state.fixedDeck.value.deck == replayed.deck
  }

  /** What a regeneration leaves, whatever was stored before: the deck is coherent with the order it read, the
      version is one more, and the applied set gains the finding exactly when it applied, is emptied with the
      original restored exactly when the fix rolled back, and stays otherwise. */
  ghost predicate RegeneratedFrom(review: Review, state: ReviewState, after: ReviewState, id: int, order: seq<FindingInfo>) {
    var outcome := Fixed(review.curve, review.original, Selected(order, state.applied + {id}));
    && WellKept(after) && Coherent(review, after, order)
    && after.rows == state.rows && after.originalAvailable == state.originalAvailable
    && after.fixedDeck.value.version == 1 + (if state.fixedDeck.Some? then state.fixedDeck.value.version else 0)
    && (outcome.rolledBack ==> after.applied == {} && after.fixedDeck.value.deck == review.original)
    && (!outcome.rolledBack ==>
          exists place :: 0 <= place < |outcome.applied| && Selected(order, state.applied + {id})[place].id == id
            && after.applied == if outcome.applied[place] then state.applied + {id} else state.applied)
  }

  lemma {:induction false} RegenerateIsCoherent(review: Review, state: ReviewState, id: int, order: seq<FindingInfo>)
    requires WellKept(state) && multiset(order) == multiset(state.rows)
    requires id !in state.applied && HasFixableRow(state.rows, id)
    ensures RegeneratedFrom(review, state, Regenerate(review, state, id, order), id, order)
  {
    var ids, after := state.applied + {id}, Regenerate(review, state, id, order);
    var selected := Selected(order, ids);
    var outcome := Fixed(review.curve, review.original, selected);
    PermutedIds(state.rows, order);
    var k :| 0 <= k < |state.rows| && state.rows[k].id == id && state.rows[k].autoFixable;
    assert state.rows[k] in multiset(order);
    FilterMember(order, (info: FindingInfo) => info.id in ids, state.rows[k]);
    var place := RowWithId(selected, id, 0).value;
    if outcome.rolledBack {
      FilterNone(order, (info: FindingInfo) => info.id in after.applied);
      FixingNothing(review.curve, review.original);
    } else if !outcome.applied[place] {
      SelectedDrop(order, state.applied, id, place);
      DroppingKeepsTheDeck(review.curve, review.original, selected, place);
    }
  }

  /** One click: a refusal or a repeat changes nothing, anything else regenerates. */
  lemma {:induction false} ApplyFixKeepsCoherence(review: Review, state: ReviewState, id: int, order: seq<FindingInfo>)
    requires WellKept(state) && multiset(order) == multiset(state.rows)
    ensures var (response, after) := Step(review, state, ApplyFix(id, order));
      if HasFixableRow(state.rows, id) && id !in state.applied && state.originalAvailable
      then response == Regenerated && RegeneratedFrom(review, state, after, id, order)
      else after == state && response == if id in state.applied then AlreadyApplied else NotFound
  {
    var k := RowWithId(state.rows, id, 0);
    if k.Some? && state.rows[k.value].autoFixable && id !in state.applied && state.originalAvailable {
      RegenerateIsCoherent(review, state, id, order);
    }
  }

  // ----- whole runs

  /** A step that is not enabled does not happen. */
  function Run(review: Review, state: ReviewState, events: seq<Event>): ReviewState {
    if events == [] then state
    else
      var before, last := Run(review, state, events[..|events| - 1]), events[|events| - 1];
      if Enabled(before, last) then Step(review, before, last).1 else before
  }

  /** What wrote the stored deck last: nothing, a worker, or a click that read the rows in some order. */
  datatype Writer = NoWriter | Worker | Click(order: seq<FindingInfo>)

  /** Who wrote the deck and how many writes it has seen since the file was created. */
  datatype History = History(writer: Writer, writes: nat)

  function NextHistory(review: Review, before: ReviewState, earlier: History, event: Event): History {
    if !Enabled(before, event) then earlier
    else
      match event
      case WorkerStores(_) => History(Worker, earlier.writes + 1)
      case FixedGone => History(NoWriter, 0)
      case OriginalGone => earlier
      case ApplyFix(_, order) =>
        if Step(review, before, event).0.Regenerated? then History(Click(order), earlier.writes + 1) else earlier
  }

  function HistoryOf(review: Review, events: seq<Event>): History {
    if events == [] then History(NoWriter, 0)
    else
      var front := events[..|events| - 1];
      NextHistory(review, Run(review, BLANK, front), HistoryOf(review, front), events[|events| - 1])
  }

  /** The stored deck, given who wrote it last. */
  ghost predicate StoredBy(review: Review, state: ReviewState, history: History) {
    match history.writer
    case NoWriter => state.fixedDeck.None? && history.writes == 0
    case Worker => state.fixedDeck == Some(Asset(review.original, history.writes))
    case Click(order) => Coherent(review, state, order) && state.fixedDeck.value.version == history.writes
  }

  lemma {:induction false} StepKeepsHistory(review: Review, state: ReviewState, history: History, event: Event)
    requires WellKept(state) && StoredBy(review, state, history) && Enabled(state, event)
    ensures var after := Step(review, state, event).1;
      WellKept(after) && StoredBy(review, after, NextHistory(review, state, history, event))
  {
    match event {
      case WorkerStores(found) => WorkerKeeps(state, found);
      case ApplyFix(id, order) => ApplyFixKeepsCoherence(review, state, id, order);
      case _ =>
    }
  }

  /** After any run, whatever order each click read the rows in: if a click wrote the stored deck last, it is the
      fix of the original with exactly the findings now applied, in the order that click read them; if a worker
      did, it is the original. The version counts the writes since the file was created. */
  lemma {:induction false} StoredDeckIsReplay(review: Review, events: seq<Event>)
    ensures var after := Run(review, BLANK, events);
      WellKept(after) && StoredBy(review, after, HistoryOf(review, events))
    decreases |events|
  {
    if events != [] {
      var front, last := events[..|events| - 1], events[|events| - 1];
      StoredDeckIsReplay(review, front);
      if Enabled(Run(review, BLANK, front), last) {
        StepKeepsHistory(review, Run(review, BLANK, front), HistoryOf(review, front), last);
      }
    }
  }

  lemma {:induction false} WorkerKeeps(state: ReviewState, found: seq<FindingInfo>)
    requires WellKept(state) && DistinctRowIds(state.rows + found)
    ensures WellKept(state.(rows := state.rows + found))
  {
    forall id | id in state.applied
      ensures HasFixableRow(state.rows + found, id)
    {
      var k :| 0 <= k < |state.rows| && state.rows[k].id == id && state.rows[k].autoFixable;
      assert (state.rows + found)[k] == state.rows[k];
    }
  }

  /** What the worker leaves the first time is coherent however the rows are read: nothing is applied. */
  lemma {:induction false} SeedIsCoherent(review: Review, found: seq<FindingInfo>, order: seq<FindingInfo>)
    requires DistinctRowIds(found) && multiset(order) == multiset(found)
    ensures var after := Run(review, BLANK, [WorkerStores(found)]);
      Coherent(review, after, order) && after.applied == {} && after.fixedDeck == Some(Asset(review.original, 1))
  {
    assert [WorkerStores(found)][..0] == [];
    assert [] + found == found;
    FilterNone(order, (info: FindingInfo) => info.id in BLANK.applied);
    FixingNothing(review.curve, review.original);
  }

  /** The order of the clicks leaves no trace, and neither does the order the rows were read in as long as no slide
      has an applied alignment next to another applied finding: two runs that end with the same applied findings,
      a click having written last, store the same deck. With equal reading orders the condition is not needed. */
  lemma {:induction false} StoredDeckDependsOnTheSetOnly(review: Review, one: seq<Event>, other: seq<Event>)
    requires HistoryOf(review, one).writer.Click? && HistoryOf(review, other).writer.Click?
    requires var a, b := Run(review, BLANK, one), Run(review, BLANK, other);
      multiset(a.rows) == multiset(b.rows) && a.applied == b.applied
    requires
      || HistoryOf(review, one).writer == HistoryOf(review, other).writer
      || Peaceful(Selected(Run(review, BLANK, one).rows, Run(review, BLANK, one).applied))
    ensures var a, b := Run(review, BLANK, one), Run(review, BLANK, other);
      a.fixedDeck.Some? && b.fixedDeck.Some? && a.fixedDeck.value.deck == b.fixedDeck.value.deck
  {
    StoredDeckIsReplay(review, one);
    StoredDeckIsReplay(review, other);
    var a, p, q := Run(review, BLANK, one), HistoryOf(review, one).writer.order, HistoryOf(review, other).writer.order;
    if p != q {
      var keep := (info: FindingInfo) => info.id in a.applied;
      FilterPermutes(a.rows, p, keep);
      FilterPermutes(p, q, keep);
      SamePeace(Filter(a.rows, keep), Filter(p, keep));
      OrderIrrelevant(review.curve, review.original, Filter(p, keep), Filter(q, keep));
    }
  }

  lemma {:induction false} SamePeace(one: seq<FindingInfo>, other: seq<FindingInfo>)
    requires Peaceful(one) && multiset(one) == multiset(other)
    ensures Peaceful(other)
  {
    forall x | x in other
      ensures x in one
    {
      assert x in multiset(other);
    }
    PeacefulPart(one, other);
  }

  // ----- the files expire

  lemma {:induction false} StepWithoutTheOriginal(review: Review, state: ReviewState, event: Event)
    requires !state.originalAvailable && Enabled(state, event)
    ensures Step(review, state, event).1 == if event.FixedGone? then state.(fixedDeck := None) else state
  {
  }

  /** Once the original is gone nothing is fixed any more: the findings and the applied set stay, and the stored deck
      stays until it expires itself. */
  lemma {:induction false} NothingWithoutTheOriginal(review: Review, state: ReviewState, events: seq<Event>)
    ensures var gone := Step(review, state, OriginalGone).1;
      var after := Run(review, gone, events);
      && !after.originalAvailable && after.rows == state.rows && after.applied == state.applied
      && after.fixedDeck == (if FixedGone in events then None else state.fixedDeck)
  {
    if events != [] {
      var front, last := events[..|events| - 1], events[|events| - 1];
      assert events == front + [last];
      NothingWithoutTheOriginal(review, state, front);
      var gone := Step(review, state, OriginalGone).1;
      if Enabled(Run(review, gone, front), last) {
        StepWithoutTheOriginal(review, Run(review, gone, front), last);
      }
    }
  }

  // ----- a second run of the worker

  /** The last click that regenerated the deck: the order it read the rows in, with the rows stored since at the end,
      and the deck it stored. */
  datatype LastClick = NoClick | Clicked(order: seq<FindingInfo>, deck: Deck)

  function NextClick(review: Review, before: ReviewState, earlier: LastClick, event: Event): LastClick {
    if !Enabled(before, event) then earlier
    else
      match event
      case WorkerStores(found) => if earlier.Clicked? then Clicked(earlier.order + found, earlier.deck) else NoClick
      case ApplyFix(id, order) =>
        if Step(review, before, event).0.Regenerated?
        then Clicked(order, Fixed(review.curve, review.original, Selected(order, before.applied + {id})).deck)
        else earlier
      case _ => earlier
  }

  function LastClickOf(review: Review, events: seq<Event>): LastClick {
    if events == [] then NoClick
    else
      var front := events[..|events| - 1];
      NextClick(review, Run(review, BLANK, front), LastClickOf(review, front), events[|events| - 1])
  }

  /** The applied set is the one the last click left: its fix, in that click's order, is the deck that click stored. */
  ghost predicate ClickHolds(review: Review, state: ReviewState, last: LastClick) {
    match last
    case NoClick => state.applied == {}
    case Clicked(order, deck) =>
      && multiset(order) == multiset(state.rows)
      && var replayed := Fixed(review.curve, review.original, Selected(order, state.applied));
         !replayed.rolledBack && replayed.deck == deck
  }

  /** Fresh rows are not among the applied ones. */
  lemma {:induction false} SelectedOfMore(state: ReviewState, order: seq<FindingInfo>, found: seq<FindingInfo>)
    requires WellKept(state) && DistinctRowIds(state.rows + found)
    ensures Selected(order + found, state.applied) == Selected(order, state.applied)
  {
    forall k | 0 <= k < |found|
      ensures found[k].id !in state.applied
    {
      assert (state.rows + found)[|state.rows| + k] == found[k];
      assert forall i :: 0 <= i < |state.rows| ==> (state.rows + found)[i] == state.rows[i];
    }
    FilterConcat(order, found, (info: FindingInfo) => info.id in state.applied);
    FilterNone(found, (info: FindingInfo) => info.id in state.applied);
  }

  lemma {:induction false} WorkerKeepsClick(review: Review, state: ReviewState, last: LastClick, found: seq<FindingInfo>)
    requires WellKept(state) && ClickHolds(review, state, last) && Enabled(state, WorkerStores(found))
    ensures ClickHolds(review, Step(review, state, WorkerStores(found)).1, NextClick(review, state, last, WorkerStores(found)))
  {
    if last.Clicked? {
      SelectedOfMore(state, last.order, found);
      assert multiset(last.order + found) == multiset(state.rows + found);
    }
  }

  lemma {:induction false} StepKeepsClick(review: Review, state: ReviewState, last: LastClick, event: Event)
    requires WellKept(state) && ClickHolds(review, state, last) && Enabled(state, event)
    ensures ClickHolds(review, Step(review, state, event).1, NextClick(review, state, last, event))
  {
    match event {
      case WorkerStores(found) => WorkerKeepsClick(review, state, last, found);
      case ApplyFix(id, order) => ApplyFixKeepsCoherence(review, state, id, order);
      case _ =>
    }
  }

  lemma {:induction false} RunKeepsClick(review: Review, events: seq<Event>)
    ensures ClickHolds(review, Run(review, BLANK, events), LastClickOf(review, events))
    decreases |events|
  {
    if events != [] {
      var front, last := events[..|events| - 1], events[|events| - 1];
      RunKeepsClick(review, front);
      StoredDeckIsReplay(review, front);
      if Enabled(Run(review, BLANK, front), last) {
        StepKeepsClick(review, Run(review, BLANK, front), LastClickOf(review, front), last);
      }
    }
  }

  /** If a click wrote the stored deck last, that was the last click. */
  ghost predicate WrittenByLast(state: ReviewState, history: History, last: LastClick) {
    history.writer.Click? ==> last.Clicked? && state.fixedDeck.Some? && last.deck == state.fixedDeck.value.deck
  }

  lemma {:induction false} StepKeepsWritten(review: Review, state: ReviewState, history: History, last: LastClick, event: Event)
    requires WrittenByLast(state, history, last) && Enabled(state, event)
    ensures WrittenByLast(Step(review, state, event).1, NextHistory(review, state, history, event),
                          NextClick(review, state, last, event))
  {
  }

  lemma {:induction false} RunKeepsWritten(review: Review, events: seq<Event>)
    ensures WrittenByLast(Run(review, BLANK, events), HistoryOf(review, events), LastClickOf(review, events))
    decreases |events|
  {
    if events != [] {
      var front, last := events[..|events| - 1], events[|events| - 1];
      RunKeepsWritten(review, front);
      if Enabled(Run(review, BLANK, front), last) {
        StepKeepsWritten(review, Run(review, BLANK, front), HistoryOf(review, front), LastClickOf(review, front), last);
      }
    }
  }

  /** The reading orders for which the condition below is exact: that of the last click, and any other when no applied
      alignment shares a slide with another applied finding. */
  ghost predicate ReadsAlike(state: ReviewState, last: LastClick, order: seq<FindingInfo>) {
    last.NoClick? || order == last.order || Peaceful(Selected(state.rows, state.applied))
  }

  lemma {:induction false} ReadAnyOrder(review: Review, state: ReviewState, last: LastClick, order: seq<FindingInfo>)
    requires ClickHolds(review, state, last) && ReadsAlike(state, last, order) && multiset(order) == multiset(state.rows)
    ensures var replayed := Fixed(review.curve, review.original, Selected(order, state.applied));
      !replayed.rolledBack && replayed.deck == if last.Clicked? then last.deck else review.original
  {
    var keep := (info: FindingInfo) => info.id in state.applied;
    if last.NoClick? {
      FilterNone(order, keep);
      FixingNothing(review.curve, review.original);
    } else if order != last.order {
      FilterPermutes(state.rows, last.order, keep);
      FilterPermutes(last.order, order, keep);
      SamePeace(Filter(state.rows, keep), Filter(last.order, keep));
      OrderIrrelevant(review.curve, review.original, Filter(last.order, keep), Filter(order, keep));
    }
  }

  /** After any run the stored deck is the fix of the applied set exactly when it is the one the last click stored,
      or the original if there was none. */
  lemma {:induction false} CoherentIff(review: Review, events: seq<Event>, order: seq<FindingInfo>)
    requires var state := Run(review, BLANK, events);
      multiset(order) == multiset(state.rows) && ReadsAlike(state, LastClickOf(review, events), order)
    ensures var state, last := Run(review, BLANK, events), LastClickOf(review, events);
      Coherent(review, state, order) <==>
        state.fixedDeck.Some? && state.fixedDeck.value.deck == if last.Clicked? then last.deck else review.original
  {
    RunKeepsClick(review, events);
    ReadAnyOrder(review, Run(review, BLANK, events), LastClickOf(review, events), order);
  }

  /** A further run of the worker puts the original back and keeps every flag. The stored deck is then the fix of the
      applied set exactly when no click had regenerated it, or the last that did had stored the original itself; that
      is the deck still stored before the worker's run if a click wrote it last. */
  lemma {:induction false} RedeliveryForgetsTheFixes(review: Review, events: seq<Event>, found: seq<FindingInfo>, order: seq<FindingInfo>)
    requires Enabled(Run(review, BLANK, events), WorkerStores(found))
    requires var state := Run(review, BLANK, events + [WorkerStores(found)]);
      multiset(order) == multiset(state.rows) && ReadsAlike(state, LastClickOf(review, events + [WorkerStores(found)]), order)
    ensures var before, after := Run(review, BLANK, events), Run(review, BLANK, events + [WorkerStores(found)]);
      var last := LastClickOf(review, events);
      && after.applied == before.applied && after.fixedDeck == Refreshed(before.fixedDeck, review.original)
      && (Coherent(review, after, order) <==> last.NoClick? || last.deck == review.original)
      && (HistoryOf(review, events).writer.Click? ==>
            before.fixedDeck.Some? && (Coherent(review, after, order) <==> before.fixedDeck.value.deck == review.original))
  {
    assert (events + [WorkerStores(found)])[..|events|] == events;
    RunKeepsWritten(review, events);
    CoherentIff(review, events + [WorkerStores(found)], order);
  }

  // ----- what a set flag says about the stored deck

  /** When a click wrote the stored deck last and no applied finding of the slide asks for an alignment: the shape a
      flagged finding aims at no longer needs its rule, unless that is text on a background the contrast rule cannot
      settle. The finding's own entry in that replay reads `applied` only if its shape needed the rule to begin
      with and no applied finding read before it asked for the same, or the rule cannot settle the shape. */
  lemma {:induction false} SetFlagGuarantee(review: Review, events: seq<Event>, i: nat, n: int, k: nat, rule: RuleName)
    requires HistoryOf(review, events).writer.Click?
    requires var infos := Selected(HistoryOf(review, events).writer.order, Run(review, BLANK, events).applied);
      TextOnSlide(infos, n) && i < |infos| && AimsAt(review.original, infos[i], n, k, rule)
    requires k < |review.original.slides[n - 1]|
    ensures !rule.Alignment?
    ensures var infos := Selected(HistoryOf(review, events).writer.order, Run(review, BLANK, events).applied);
      var before, stored := review.original.slides[n - 1][k], Run(review, BLANK, events).fixedDeck;
      && stored.Some? && |stored.value.deck.slides| == |review.original.slides|
      && |stored.value.deck.slides[n - 1]| == |review.original.slides[n - 1]|
      && (Needs(review.curve, rule, stored.value.deck.slides[n - 1][k]) ==> NeverSettles(review.curve, rule, before))
      && (Replay(review.curve, review.original, infos).applied[i] <==>
            Needs(review.curve, rule, before) &&
            (SomeAims(review.original, infos[..i], n, k, rule) ==> NeverSettles(review.curve, rule, before)))
  {
    StoredDeckIsReplay(review, events);
    var infos := Selected(HistoryOf(review, events).writer.order, Run(review, BLANK, events).applied);
    NeedAfterAll(review.curve, review.original, infos, n, k, rule);
    TextAppliesIff(review.curve, review.original, infos, i, n, k, rule);
  }
}
