/** Deduplication, the per-slide cap, the report order and the deck score. */
module Aggregate {
  import opened Wrappers
  import opened Taxonomy
  import opened Geometry
  import opened GreedyScan
  import opened StableSort
  import opened Sums

  /** An analyzer's text, or the aggregator's note of how many findings of the slide are not shown. */
  datatype Description = Text(text: string) | NotShown(count: nat)

  datatype Finding = Finding(
    slideNum: Option<int>, category: Category, severity: Severity, description: Description, bbox: Option<BBox>
  )

  function MiscFinding(slideNum: Option<int>, category: Category, overflow: nat): Finding {
    Finding(slideNum, category, MINOR, NotShown(overflow), None)
  }

  // ----- deduplication

  /** A finding with its place in the input. */
  type Tagged = (nat, Finding)

  /** The judge's answer for each pair of input places; within one pass no pair is asked about twice. */
  type Judge = (nat, nat) -> bool

  function Enumerated(findings: seq<Finding>): (tagged: seq<Tagged>)
    ensures |tagged| == |findings| && forall i :: 0 <= i < |findings| ==> tagged[i] == (i, findings[i])
  {
    seq(|findings|, i requires 0 <= i < |findings| => (i, findings[i]))
  }

  function Untagged(tagged: seq<Tagged>): (findings: seq<Finding>)
    ensures |findings| == |tagged| && forall i :: 0 <= i < |tagged| ==> findings[i] == tagged[i].1
  {
    seq(|tagged|, i requires 0 <= i < |tagged| => tagged[i].1)
  }

  /** Same slide, boxes overlapping beyond the threshold, and the judge says so. */
  predicate Duplicates(threshold: real, judge: Judge, a: Tagged, b: Tagged) {
    && a.1.slideNum == b.1.slideNum && a.1.bbox.Some? && b.1.bbox.Some?
    && Iou(a.1.bbox.value, b.1.bbox.value) > threshold
    && judge(a.0, b.0)
  }

  function DuplicateTest(threshold: real, judge: Judge): (Tagged, Tagged) -> bool {
    (a: Tagged, b: Tagged) => Duplicates(threshold, judge, a, b)
  }

  function Deduped(findings: seq<Finding>, threshold: real, judge: Judge): seq<Finding> {
    Untagged(Scan([], Enumerated(findings), DuplicateTest(threshold, judge)))
  }

  method Dedup(findings: seq<Finding>, threshold: real, judge: Judge) returns (kept: seq<Finding>)
    ensures kept == Deduped(findings, threshold, judge)
  {
    var held: seq<Tagged> := [];
    ghost var test := DuplicateTest(threshold, judge);
    for i := 0 to |findings|
      invariant held == Scan([], Enumerated(findings)[..i], test)
    {
      var finding := findings[i];
      var isDuplicate := false;
      for k := 0 to |held|
        invariant !isDuplicate
        invariant forall j :: 0 <= j < k ==> !Duplicates(threshold, judge, (i, finding), held[j])
      {
        var other := held[k].1;
        if finding.slideNum == other.slideNum && finding.bbox.Some? && other.bbox.Some?
           && Iou(finding.bbox.value, other.bbox.value) > threshold && judge(i, held[k].0) {
          isDuplicate := true;
          assert test((i, finding), held[k]);
          break;
        }
      }
      ScanStep([], Enumerated(findings)[..i], Enumerated(findings)[i], test);
      assert Enumerated(findings)[..i] + [Enumerated(findings)[i]] == Enumerated(findings)[..i + 1];
      if !isDuplicate {
        held := held + [(i, finding)];
      }
    }
    assert Enumerated(findings)[..|findings|] == Enumerated(findings);
    kept := Untagged(held);
  }

  function KeptPlaces(findings: seq<Finding>, threshold: real, judge: Judge): seq<nat> {
    Positions([], Enumerated(findings), DuplicateTest(threshold, judge))
  }

  /** The findings at two places are on one slide, their boxes overlap beyond the threshold, and the judge, asked about
      these places, says they are the same issue. */
  predicate DuplicatesAt(findings: seq<Finding>, threshold: real, judge: Judge, i: nat, j: nat)
    requires i < |findings| && j < |findings|
  {
    && findings[i].slideNum == findings[j].slideNum
    && findings[i].bbox.Some? && findings[j].bbox.Some?
    && Iou(findings[i].bbox.value, findings[j].bbox.value) > threshold
    && judge(i, j)
  }

  /** The kept findings are a subsequence without internal duplicates, every dropped one duplicates an earlier
      kept one, and one without a box is always kept. */
  lemma {:induction false} DedupIsGreedy(findings: seq<Finding>, threshold: real, judge: Judge)
    ensures var at, kept := KeptPlaces(findings, threshold, judge), Deduped(findings, threshold, judge);
      && StrictlyIncreasing(at) && |at| == |kept|
      && (forall a :: 0 <= a < |at| ==> at[a] < |findings| && kept[a] == findings[at[a]])
      && (forall a, b :: 0 <= a < b < |at| ==> !DuplicatesAt(findings, threshold, judge, at[b], at[a]))
      && (forall i: nat :: i < |findings| && i !in at ==>
            exists a :: 0 <= a < |at| && at[a] < i && DuplicatesAt(findings, threshold, judge, i, at[a]))
      && (forall i: nat :: i < |findings| && findings[i].bbox.None? ==> i in at)
  {
    var tagged, test := Enumerated(findings), DuplicateTest(threshold, judge);
    var at := KeptPlaces(findings, threshold, judge);
    ScanIsGreedy([], tagged, test);
    forall i: nat | i < |findings| && i !in at
      ensures exists a :: 0 <= a < |at| && at[a] < i && DuplicatesAt(findings, threshold, judge, i, at[a])
    {
      assert HasWitness([], tagged, at, test, i);
      var a :| 0 <= a < |at| && at[a] < i && test(tagged[i], tagged[at[a]]);
      assert DuplicatesAt(findings, threshold, judge, i, at[a]);
    }
  }

  /** A judge that answers by content. */
  function ContentJudge(findings: seq<Finding>, same: (Finding, Finding) -> bool): Judge {
    (i: nat, j: nat) => i < |findings| && j < |findings| && same(findings[i], findings[j])
  }

  /** With such a judge a second pass drops nothing. */
  lemma {:induction false} DedupIsIdempotent(findings: seq<Finding>, threshold: real, same: (Finding, Finding) -> bool)
    ensures var kept := Deduped(findings, threshold, ContentJudge(findings, same));
      Deduped(kept, threshold, ContentJudge(kept, same)) == kept
  {
    var judge := ContentJudge(findings, same);
    var at, kept := KeptPlaces(findings, threshold, judge), Deduped(findings, threshold, judge);
    DedupIsGreedy(findings, threshold, judge);
    var again := DuplicateTest(threshold, ContentJudge(kept, same));
    forall a, b | 0 <= a < b < |kept|
      ensures !again(Enumerated(kept)[b], Enumerated(kept)[a])
    {
      assert !DuplicatesAt(findings, threshold, judge, at[b], at[a]);
    }
    IndependentListIsKept(Enumerated(kept), again);
  }

  // ----- the cap

  function OnSlide(slideNum: Option<int>): Finding -> bool {
    (f: Finding) => f.slideNum == slideNum
  }

  function SeverityKey(): Finding -> Key {
    (f: Finding) => (SeverityOrder(f.severity), 0)
  }

  /** The slides (and the deck level) in the order they first appear. */
  function SlideKeys(findings: seq<Finding>): (keys: seq<Option<int>>)
    ensures forall s :: s in keys <==> exists i :: 0 <= i < |findings| && findings[i].slideNum == s
    ensures forall a, b :: 0 <= a < b < |keys| ==> keys[a] != keys[b]
  {
    if findings == [] then []
    else
      var earlier, last := SlideKeys(findings[..|findings| - 1]), findings[|findings| - 1].slideNum;
      assert findings == findings[..|findings| - 1] + [findings[|findings| - 1]];
      if last in earlier then earlier else earlier + [last]
  }

  function Group(findings: seq<Finding>, slideNum: Option<int>): seq<Finding> {
    Sort(Filter(findings, OnSlide(slideNum)), SeverityKey())
  }

  /** What the report shows of one slide's sorted findings. */
  function Shown(group: seq<Finding>, slideNum: Option<int>, max: nat): seq<Finding>
    requires max >= 1
  {
    if |group| <= max then group
    else group[..max] + [MiscFinding(slideNum, group[0].category, |group| - max)]
  }

  /** What the report shows of each slide. */
  function SlideEntries(findings: seq<Finding>, max: nat): Option<int> -> seq<Finding>
    requires max >= 1
  {
    (key: Option<int>) => Shown(Group(findings, key), key, max)
  }

  function CappedOver(keys: seq<Option<int>>, findings: seq<Finding>, max: nat): seq<Finding>
    requires max >= 1
  {
    FlatMap(keys, SlideEntries(findings, max))
  }

  function Capped(findings: seq<Finding>, max: nat): seq<Finding>
    requires max >= 1
  {
    CappedOver(SlideKeys(findings), findings, max)
  }

  /** The dictionary of groups, and the order its keys were first inserted in. */
  method GroupBySlide(findings: seq<Finding>) returns (order: seq<Option<int>>, bySlide: map<Option<int>, seq<Finding>>)
    ensures order == SlideKeys(findings)
    ensures forall k :: 0 <= k < |order| ==>
      order[k] in bySlide && bySlide[order[k]] == Filter(findings, OnSlide(order[k]))
  {
    bySlide, order := map[], [];
    for i := 0 to |findings|
      invariant order == SlideKeys(findings[..i])
      invariant forall s :: s in bySlide <==> s in order
      invariant forall s :: s in bySlide ==> bySlide[s] == Filter(findings[..i], OnSlide(s))
    {
      var finding := findings[i];
      var s := finding.slideNum;
      assert findings[..i + 1][..i] == findings[..i];
      if s !in bySlide {
        order := order + [s];
        bySlide := bySlide[s := []];
        FilterNone(findings[..i], OnSlide(s));
      }
      bySlide := bySlide[s := bySlide[s] + [finding]];
    }
    assert findings[..|findings|] == findings;
  }

  method SortGroup(unsorted: seq<Finding>) returns (group: seq<Finding>)
    ensures group == Sort(unsorted, SeverityKey())
  {
    group := Sort(unsorted, SeverityKey());
  }

  /** Python's `xs[:n]`. */
  function Prefix<T>(xs: seq<T>, n: int): seq<T> {
    if n >= 0 then xs[..MinInt(n, |xs|)] else xs[..MaxInt(0, |xs| + n)]
  }

  /** What the source's branch yields for any quota; None is the IndexError on the category of an empty prefix. */
  function ShownOrRaise(group: seq<Finding>, s: Option<int>, max: int): Option<seq<Finding>> {
    if |group| <= max then Some(group)
    else
      var kept := Prefix(group, max);
      if kept == [] then None else Some(kept + [MiscFinding(s, kept[0].category, |group| - max)])
  }

  /** All slides joined, unless one of them raises. */
  function CappedOrRaise(keys: seq<Option<int>>, findings: seq<Finding>, max: int): Option<seq<Finding>> {
    if keys == [] then Some([])
    else
      var key := keys[|keys| - 1];
      var earlier := CappedOrRaise(keys[..|keys| - 1], findings, max);
      var entries := ShownOrRaise(Group(findings, key), key, max);
      if earlier.Some? && entries.Some? then Some(earlier.value + entries.value) else None
  }

  lemma {:induction false} RaiseStays(keys: seq<Option<int>>, findings: seq<Finding>, max: int, k: nat)
    requires k <= |keys| && CappedOrRaise(keys[..k], findings, max).None?
    ensures CappedOrRaise(keys, findings, max).None?
    decreases |keys|
  {
    if k == |keys| {
      assert keys[..k] == keys;
    } else {
      assert keys[..|keys| - 1][..k] == keys[..k];
      RaiseStays(keys[..|keys| - 1], findings, max, k);
    }
  }

  /** With a quota of at least one nothing raises. */
  lemma {:induction false} PositiveQuotaShows(keys: seq<Option<int>>, findings: seq<Finding>, max: nat)
    requires max >= 1
    ensures CappedOrRaise(keys, findings, max) == Some(CappedOver(keys, findings, max))
  {
    if keys != [] {
      PositiveQuotaShows(keys[..|keys| - 1], findings, max);
    }
  }

  /** A quota below one raises on a slide with no more findings than it is below zero, and zero always does. */
  predicate TooFew(findings: seq<Finding>, s: Option<int>, max: int) {
    max == 0 || |Group(findings, s)| <= -max
  }

  lemma {:induction false} SmallQuotaRaises(findings: seq<Finding>, s: Option<int>, max: int)
    requires max < 1 && Group(findings, s) != []
    ensures ShownOrRaise(Group(findings, s), s, max).None? <==> TooFew(findings, s, max)
  {
  }

  ghost predicate SomeTooFew(keys: seq<Option<int>>, findings: seq<Finding>, max: int) {
    exists s :: s in keys && TooFew(findings, s, max)
  }

  lemma {:induction false} SomeTooFewSnoc(front: seq<Option<int>>, key: Option<int>, findings: seq<Finding>, max: int)
    ensures SomeTooFew(front + [key], findings, max) <==> SomeTooFew(front, findings, max) || TooFew(findings, key, max)
  {
    assert forall s :: s in front + [key] <==> s in front || s == key;
    assert key in front + [key];
  }

  lemma {:induction false} CappedSnoc(front: seq<Option<int>>, key: Option<int>, findings: seq<Finding>, max: int)
    ensures CappedOrRaise(front + [key], findings, max).None? <==>
            CappedOrRaise(front, findings, max).None? || ShownOrRaise(Group(findings, key), key, max).None?
  {
    assert (front + [key])[..|front|] == front;
  }

  lemma {:induction false} SmallQuotaRaisesIff(keys: seq<Option<int>>, findings: seq<Finding>, max: int)
    requires max < 1 && forall s :: s in keys ==> Group(findings, s) != []
    ensures CappedOrRaise(keys, findings, max).None? <==> SomeTooFew(keys, findings, max)
  {
    if keys != [] {
      var front, key := keys[..|keys| - 1], keys[|keys| - 1];
      SmallQuotaRaisesIff(front, findings, max);
      assert keys == front + [key];
      SmallQuotaRaises(findings, key, max);
      SomeTooFewSnoc(front, key, findings, max);
      CappedSnoc(front, key, findings, max);
    }
  }

  /** The entries one sorted group contributes. */
  method ShowGroup(group: seq<Finding>, s: Option<int>, max: int) returns (entries: Option<seq<Finding>>)
    ensures entries == ShownOrRaise(group, s, max)
  {
    if |group| <= max {
      return Some(group);
    }
    var kept := Prefix(group, max);
    var overflow := |group| - max;
    if kept == [] {
      return None;
    }
    entries := Some(kept + [MiscFinding(s, kept[0].category, overflow)]);
  }

  lemma {:induction false} CappedStep(keys: seq<Option<int>>, findings: seq<Finding>, max: int, k: nat, entries: Option<seq<Finding>>)
    requires k < |keys| && entries == ShownOrRaise(Group(findings, keys[k]), keys[k], max)
    ensures var earlier := CappedOrRaise(keys[..k], findings, max);
      CappedOrRaise(keys[..k + 1], findings, max) ==
        if earlier.Some? && entries.Some? then Some(earlier.value + entries.value) else None
  {
    assert keys[..k + 1][..k] == keys[..k];
  }

  method CapPerSlide(findings: seq<Finding>, max: int) returns (result: Option<seq<Finding>>)
    ensures result == CappedOrRaise(SlideKeys(findings), findings, max)
    ensures max >= 1 ==> result == Some(Capped(findings, max))
  {
    var order, bySlide := GroupBySlide(findings);
    result := CapGroups(findings, order, bySlide, max);
    if max >= 1 {
      PositiveQuotaShows(order, findings, max);
    }
  }

  /** The loop over the groups in the order their keys were inserted. */
  method CapGroups(ghost findings: seq<Finding>, order: seq<Option<int>>, bySlide: map<Option<int>, seq<Finding>>, max: int)
    returns (result: Option<seq<Finding>>)
    requires forall k :: 0 <= k < |order| ==> order[k] in bySlide && bySlide[order[k]] == Filter(findings, OnSlide(order[k]))
    ensures result == CappedOrRaise(order, findings, max)
  {
    var shown: seq<Finding> := [];
    for k := 0 to |order|
      invariant CappedOrRaise(order[..k], findings, max) == Some(shown)
    {
      var group := SortGroup(bySlide[order[k]]);
      var entries := ShowGroup(group, order[k], max);
      CappedStep(order, findings, max, k, entries);
      if entries.None? {
        RaiseStays(order, findings, max, k + 1);
        return None;
      }
      shown := shown + entries.value;
    }
    assert order[..|order|] == order;
    result := Some(shown);
  }

  // ----- the whole aggregation

  function ReportKey(): Finding -> Key {
    (f: Finding) => (SeverityOrder(f.severity), if f.slideNum.Some? then f.slideNum.value else -1)
  }

  function Aggregated(findings: seq<Finding>, threshold: real, max: nat, judge: Judge): seq<Finding>
    requires max >= 1
  {
    Sort(Capped(Deduped(findings, threshold, judge), max), ReportKey())
  }

  function AggregatedOrRaise(findings: seq<Finding>, threshold: real, max: int, judge: Judge): Option<seq<Finding>> {
    var deduped := Deduped(findings, threshold, judge);
    var capped := CappedOrRaise(SlideKeys(deduped), deduped, max);
    if capped.None? then None else Some(Sort(capped.value, ReportKey()))
  }

  method RunAggregator(findings: seq<Finding>, threshold: real, max: int, judge: Judge)
    returns (report: Option<seq<Finding>>)
    ensures report == AggregatedOrRaise(findings, threshold, max, judge)
    ensures max >= 1 ==> report == Some(Aggregated(findings, threshold, max, judge))
  {
    var deduped := Dedup(findings, threshold, judge);
    var capped := CapPerSlide(deduped, max);
    if capped.None? {
      return None;
    }
    report := Some(Sort(capped.value, ReportKey()));
  }

  // ----- what the report shows

  lemma {:induction false} GroupOnSlide(findings: seq<Finding>, s: Option<int>)
    ensures Sorted(Group(findings, s), SeverityKey())
    ensures forall i :: 0 <= i < |Group(findings, s)| ==> Group(findings, s)[i].slideNum == s
    ensures |Group(findings, s)| == |Filter(findings, OnSlide(s))|
  {
    var chosen := Filter(findings, OnSlide(s));
    SortSorted(chosen, SeverityKey());
    SortKeeps(chosen, SeverityKey());
    var group := Group(findings, s);
    forall i | 0 <= i < |group|
      ensures group[i].slideNum == s
    {
      assert group[i] in chosen;
    }
  }

  /** What is shown of a slide is on that slide and already in report order. */
  lemma {:induction false} ShownInOrder(findings: seq<Finding>, s: Option<int>, max: nat)
    requires max >= 1
    ensures var shown := Shown(Group(findings, s), s, max);
      && Sorted(shown, ReportKey())
      && forall i :: 0 <= i < |shown| ==> shown[i].slideNum == s
  {
    GroupOnSlide(findings, s);
    var group, shown := Group(findings, s), Shown(Group(findings, s), s, max);
    forall i, j | 0 <= i < j < |shown|
      ensures KeyLe(ReportKey()(shown[i]), ReportKey()(shown[j]))
    {
      if j < |group| && j < max {
        assert KeyLe(SeverityKey()(group[i]), SeverityKey()(group[j]));
      } else if |group| <= max {
        assert KeyLe(SeverityKey()(group[i]), SeverityKey()(group[j]));
      }
    }
  }

  lemma {:induction false} CappedSelects(keys: seq<Option<int>>, findings: seq<Finding>, max: nat, s: Option<int>)
    requires max >= 1 && forall a, b :: 0 <= a < b < |keys| ==> keys[a] != keys[b]
    ensures Filter(CappedOver(keys, findings, max), OnSlide(s)) ==
            if s in keys then Shown(Group(findings, s), s, max) else []
  {
    if keys != [] {
      var front, key := keys[..|keys| - 1], keys[|keys| - 1];
      CappedSelects(front, findings, max, s);
      var shown := Shown(Group(findings, key), key, max);
      ShownInOrder(findings, key, max);
      FilterConcat(CappedOver(front, findings, max), shown, OnSlide(s));
      if key == s {
        FilterAll(shown, OnSlide(s));
      } else {
        FilterNone(shown, OnSlide(s));
      }
    }
  }

  /** Of every slide, and of the deck level, the report shows exactly the first `max` of its deduplicated findings
      in stable severity order, followed by one entry with the exact number hidden when there are more. */
  lemma {:induction false} ReportShowsEachSlide(findings: seq<Finding>, threshold: real, max: nat, judge: Judge, s: Option<int>)
    requires max >= 1
    ensures var group := Group(Deduped(findings, threshold, judge), s);
      && Filter(Aggregated(findings, threshold, max, judge), OnSlide(s)) == Shown(group, s, max)
      && |group| == |Filter(Deduped(findings, threshold, judge), OnSlide(s))|
  {
    var deduped := Deduped(findings, threshold, judge);
    var keys := SlideKeys(deduped);
    GroupOnSlide(deduped, s);
    CappedSelects(keys, deduped, max, s);
    SortFilter(Capped(deduped, max), ReportKey(), OnSlide(s));
    ShownInOrder(deduped, s, max);
    if s in keys {
      SortIdentity(Shown(Group(deduped, s), s, max), ReportKey());
    } else {
      FilterNone(deduped, OnSlide(s));
      assert Group(deduped, s) == [];
    }
  }

  lemma {:induction false} ReportIsSorted(findings: seq<Finding>, threshold: real, max: nat, judge: Judge)
    requires max >= 1
    ensures Sorted(Aggregated(findings, threshold, max, judge), ReportKey())
  {
    SortSorted(Capped(Deduped(findings, threshold, judge), max), ReportKey());
  }

  // ----- sums over the report, slide by slide

  function InKeys(keys: seq<Option<int>>): Finding -> bool {
    (f: Finding) => f.slideNum in keys
  }

  /** The sum over all slides' groups. */
  function GroupSums(keys: seq<Option<int>>, findings: seq<Finding>, f: Finding -> int): int {
    if keys == [] then 0
    else GroupSums(keys[..|keys| - 1], findings, f) + Sum(Group(findings, keys[|keys| - 1]), f)
  }

  lemma {:induction false} GroupSumsOverKeys(keys: seq<Option<int>>, findings: seq<Finding>, f: Finding -> int)
    requires forall a, b :: 0 <= a < b < |keys| ==> keys[a] != keys[b]
    ensures GroupSums(keys, findings, f) == Sum(Filter(findings, InKeys(keys)), f)
  {
    if keys == [] {
      FilterNone(findings, InKeys(keys));
    } else {
      var front, key := keys[..|keys| - 1], keys[|keys| - 1];
      GroupSumsOverKeys(front, findings, f);
      SumSort(Filter(findings, OnSlide(key)), SeverityKey(), f);
      assert keys == front + [key];
      SumSplit(findings, InKeys(front), OnSlide(key), InKeys(keys), f);
    }
  }

  /** Grouping by slide loses nothing. */
  lemma {:induction false} GroupSumsAll(findings: seq<Finding>, f: Finding -> int)
    ensures GroupSums(SlideKeys(findings), findings, f) == Sum(findings, f)
  {
    GroupSumsOverKeys(SlideKeys(findings), findings, f);
    FilterAll(findings, InKeys(SlideKeys(findings)));
  }

  // ----- nothing disappears uncounted

  /** How many findings an entry of the report stands for. */
  function StandsFor(): Finding -> int {
    (f: Finding) => if f.description.NotShown? then f.description.count else 1
  }

  predicate FromAnalyzers(findings: seq<Finding>) {
    forall i :: 0 <= i < |findings| ==> findings[i].description.Text?
  }

  lemma {:induction false} ShownStandsFor(group: seq<Finding>, s: Option<int>, max: nat)
    requires max >= 1 && FromAnalyzers(group)
    ensures Sum(Shown(group, s, max), StandsFor()) == |group| == Sum(group, StandsFor())
  {
    SumBounds(group, StandsFor(), 1, 1);
    if |group| > max {
      SumBounds(group[..max], StandsFor(), 1, 1);
      SumSnoc(group[..max], MiscFinding(s, group[0].category, |group| - max), StandsFor());
    }
  }

  lemma {:induction false} CappedStandsFor(keys: seq<Option<int>>, findings: seq<Finding>, max: nat)
    requires max >= 1 && FromAnalyzers(findings)
    ensures Sum(CappedOver(keys, findings, max), StandsFor()) == GroupSums(keys, findings, StandsFor())
  {
    if keys != [] {
      var front, key := keys[..|keys| - 1], keys[|keys| - 1];
      CappedStandsFor(front, findings, max);
      SumConcat(CappedOver(front, findings, max), Shown(Group(findings, key), key, max), StandsFor());
      GroupFromAnalyzers(findings, key);
      ShownStandsFor(Group(findings, key), key, max);
    }
  }

  lemma {:induction false} GroupFromAnalyzers(findings: seq<Finding>, s: Option<int>)
    requires FromAnalyzers(findings)
    ensures FromAnalyzers(Group(findings, s))
  {
    var chosen, group := Filter(findings, OnSlide(s)), Group(findings, s);
    SortKeeps(chosen, SeverityKey());
    forall i | 0 <= i < |group|
      ensures group[i].description.Text?
    {
      assert group[i] in chosen;
      FilterMember(findings, OnSlide(s), group[i]);
    }
  }

  lemma {:induction false} DedupFromAnalyzers(findings: seq<Finding>, threshold: real, judge: Judge)
    requires FromAnalyzers(findings)
    ensures FromAnalyzers(Deduped(findings, threshold, judge))
  {
    DedupIsGreedy(findings, threshold, judge);
  }

  lemma {:induction false} CountEach(findings: seq<Finding>)
    requires FromAnalyzers(findings)
    ensures Sum(findings, StandsFor()) == |findings|
  {
    SumBounds(findings, StandsFor(), 1, 1);
  }

  lemma {:induction false} CappedCountsEverything(deduped: seq<Finding>, max: nat)
    requires max >= 1 && FromAnalyzers(deduped)
    ensures Sum(Capped(deduped, max), StandsFor()) == |deduped|
  {
    CappedStandsFor(SlideKeys(deduped), deduped, max);
    GroupSumsAll(deduped, StandsFor());
    CountEach(deduped);
  }

  /** Shown plus hidden is the number of deduplicated findings. */
  lemma {:induction false} ReportCountsEverything(findings: seq<Finding>, threshold: real, max: nat, judge: Judge)
    requires max >= 1 && FromAnalyzers(findings)
    ensures Sum(Aggregated(findings, threshold, max, judge), StandsFor()) == |Deduped(findings, threshold, judge)|
  {
    var deduped := Deduped(findings, threshold, judge);
    DedupFromAnalyzers(findings, threshold, judge);
    CappedCountsEverything(deduped, max);
    SumSort(Capped(deduped, max), ReportKey(), StandsFor());
  }

  // ----- quotas below one

  lemma {:induction false} EveryKeyHasFindings(findings: seq<Finding>, s: Option<int>)
    requires s in SlideKeys(findings)
    ensures Group(findings, s) != []
  {
    var i :| 0 <= i < |findings| && findings[i].slideNum == s;
    GroupOnSlide(findings, s);
    FilterMember(findings, OnSlide(s), findings[i]);
  }

  lemma {:induction false} NoKeysNoFindings(findings: seq<Finding>)
    ensures SlideKeys(findings) == [] <==> findings == []
  {
    if findings != [] {
      assert findings[0].slideNum in SlideKeys(findings);
    }
  }

  lemma {:induction false} ZeroAlwaysRaises(keys: seq<Option<int>>, findings: seq<Finding>)
    ensures SomeTooFew(keys, findings, 0) <==> keys != []
  {
    if keys != [] {
      assert keys[0] in keys && TooFew(findings, keys[0], 0);
    }
  }

  lemma {:induction false} DoubleShown(group: seq<Finding>, s: Option<int>, max: int)
    requires max < 0 && FromAnalyzers(group) && ShownOrRaise(group, s, max).Some?
    ensures Sum(ShownOrRaise(group, s, max).value, StandsFor()) == 2 * |group| == 2 * Sum(group, StandsFor())
  {
    var kept := Prefix(group, max);
    SumBounds(group, StandsFor(), 1, 1);
    SumBounds(kept, StandsFor(), 1, 1);
    SumSnoc(kept, MiscFinding(s, kept[0].category, |group| - max), StandsFor());
  }

  lemma {:induction false} DoubleCapped(keys: seq<Option<int>>, findings: seq<Finding>, max: int)
    requires max < 0 && FromAnalyzers(findings) && CappedOrRaise(keys, findings, max).Some?
    ensures Sum(CappedOrRaise(keys, findings, max).value, StandsFor()) == 2 * GroupSums(keys, findings, StandsFor())
  {
    if keys != [] {
      var front, key := keys[..|keys| - 1], keys[|keys| - 1];
      DoubleCapped(front, findings, max);
      GroupFromAnalyzers(findings, key);
      DoubleShown(Group(findings, key), key, max);
      SumConcat(CappedOrRaise(front, findings, max).value, ShownOrRaise(Group(findings, key), key, max).value, StandsFor());
    }
  }

  /** What a quota below one does: with findings to show, zero always raises and a negative one raises exactly when
      some slide has no more findings than the quota is below zero; one that does not raise reports every finding
      twice, shown or as hidden. */
  lemma {:induction false} QuotaBelowOne(findings: seq<Finding>, threshold: real, max: int, judge: Judge)
    requires max < 1 && FromAnalyzers(findings)
    ensures var deduped, report := Deduped(findings, threshold, judge), AggregatedOrRaise(findings, threshold, max, judge);
      && (report.None? <==> SomeTooFew(SlideKeys(deduped), deduped, max))
      && (report.Some? ==> Sum(report.value, StandsFor()) == 2 * |deduped|)
  {
    var deduped := Deduped(findings, threshold, judge);
    var keys := SlideKeys(deduped);
    forall s | s in keys
      ensures Group(deduped, s) != []
    {
      EveryKeyHasFindings(deduped, s);
    }
    SmallQuotaRaisesIff(keys, deduped, max);
    DedupIsGreedy(findings, threshold, judge);
    if CappedOrRaise(keys, deduped, max).Some? {
      var capped := CappedOrRaise(keys, deduped, max).value;
      SumSort(capped, ReportKey(), StandsFor());
      GroupSumsAll(deduped, StandsFor());
      SumBounds(deduped, StandsFor(), 1, 1);
      if max < 0 {
        DoubleCapped(keys, deduped, max);
      } else {
        ZeroAlwaysRaises(keys, deduped);
        NoKeysNoFindings(deduped);
      }
    }
  }
}
