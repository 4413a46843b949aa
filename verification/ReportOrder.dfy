/** Where deck-level entries stand among the equally severe entries of a report. */
module ReportOrder {
  import opened Wrappers
  import opened Taxonomy
  import opened GreedyScan
  import opened StableSort
  import opened Aggregate

  // ----- one kind of element before another

  /** Every element satisfying `p` stands before every element satisfying `q`. */
  ghost predicate AllBefore<T>(xs: seq<T>, p: T -> bool, q: T -> bool) {
    forall a, b :: 0 <= a < |xs| && 0 <= b < |xs| && p(xs[a]) && q(xs[b]) ==> a < b
  }

  ghost predicate Has<T>(xs: seq<T>, p: T -> bool) {
    exists x :: x in xs && p(x)
  }

  lemma {:induction false} BeforeConcat<T>(xs: seq<T>, ys: seq<T>, p: T -> bool, q: T -> bool)
    ensures AllBefore(xs + ys, p, q) <==>
            AllBefore(xs, p, q) && AllBefore(ys, p, q) && !(Has(xs, q) && Has(ys, p))
  {
    var all := xs + ys;
    assert forall k :: 0 <= k < |xs| ==> all[k] == xs[k];
    assert forall k :: 0 <= k < |ys| ==> all[|xs| + k] == ys[k];
    if AllBefore(all, p, q) {
      forall a, b | 0 <= a < |ys| && 0 <= b < |ys| && p(ys[a]) && q(ys[b])
        ensures a < b
      {
        assert p(all[|xs| + a]) && q(all[|xs| + b]);
      }
    }
    if Has(xs, q) && Has(ys, p) {
      var x, y :| x in xs && q(x) && y in ys && p(y);
      var b :| 0 <= b < |xs| && xs[b] == x;
      var a :| 0 <= a < |ys| && ys[a] == y;
      assert p(all[|xs| + a]) && q(all[b]);
    }
  }

  /** Selecting elements, these two kinds among them, does not change which kind comes first. */
  lemma {:induction false} FilterBefore<T>(xs: seq<T>, keep: T -> bool, p: T -> bool, q: T -> bool)
    requires forall x :: p(x) || q(x) ==> keep(x)
    ensures AllBefore(Filter(xs, keep), p, q) <==> AllBefore(xs, p, q)
  {
    if xs != [] {
      var front, x := xs[..|xs| - 1], xs[|xs| - 1];
      assert xs == front + [x];
      FilterBefore(front, keep, p, q);
      BeforeConcat(front, [x], p, q);
      BeforeConcat(Filter(front, keep), [x], p, q);
      FilterHas(front, keep, q);
      assert !keep(x) ==> !p(x) && !q(x);
    }
  }

  lemma {:induction false} FilterHas<T>(xs: seq<T>, keep: T -> bool, q: T -> bool)
    requires forall x :: q(x) ==> keep(x)
    ensures Has(Filter(xs, keep), q) <==> Has(xs, q)
  {
    if x :| x in xs && q(x) {
      FilterMember(xs, keep, x);
    }
    if x :| x in Filter(xs, keep) && q(x) {
      FilterMember(xs, keep, x);
    }
  }

  // ----- the order in which slides appear

  /** Slide `a` has a finding before the first one of slide `b`. */
  ghost predicate AppearsBefore(findings: seq<Finding>, a: Option<int>, b: Option<int>) {
    exists i :: 0 <= i < |findings| && findings[i].slideNum == a && NoneUpTo(findings, i, b)
  }

  ghost predicate NoneUpTo(findings: seq<Finding>, i: int, s: Option<int>) {
    forall j :: 0 <= j <= i && j < |findings| ==> findings[j].slideNum != s
  }

  ghost predicate KeyBefore(keys: seq<Option<int>>, a: Option<int>, b: Option<int>) {
    exists m, n :: 0 <= m < n < |keys| && keys[m] == a && keys[n] == b
  }

  lemma {:induction false} FirstOn(findings: seq<Finding>, i: nat, s: Option<int>) returns (first: nat)
    requires i < |findings| && findings[i].slideNum == s
    ensures first <= i && findings[first].slideNum == s && NoneUpTo(findings, first - 1, s)
    decreases i
  {
    if j: nat :| j < i && findings[j].slideNum == s {
      first := FirstOn(findings, j, s);
    } else {
      first := i;
    }
  }

  lemma {:induction false} AppearsSnoc(front: seq<Finding>, last: Finding, a: Option<int>, b: Option<int>)
    requires a != b
    ensures AppearsBefore(front + [last], a, b) <==>
            AppearsBefore(front, a, b) || (last.slideNum == a && NoneUpTo(front, |front| - 1, b))
  {
    var all := front + [last];
    if i :| 0 <= i < |all| && all[i].slideNum == a && NoneUpTo(all, i, b) {
      if i < |front| {
        assert forall j :: 0 <= j <= i ==> front[j] == all[j];
        assert NoneUpTo(front, i, b);
      } else {
        assert forall j :: 0 <= j < |front| ==> front[j] == all[j];
      }
    }
    if i :| 0 <= i < |front| && front[i].slideNum == a && NoneUpTo(front, i, b) {
      assert all[i].slideNum == a && NoneUpTo(all, i, b);
    }
    if last.slideNum == a && NoneUpTo(front, |front| - 1, b) {
      assert all[|front|].slideNum == a && NoneUpTo(all, |front|, b);
    }
  }

  lemma {:induction false} KeySnoc(front: seq<Option<int>>, last: Option<int>, a: Option<int>, b: Option<int>)
    requires a != b
    ensures KeyBefore(front + [last], a, b) <==> KeyBefore(front, a, b) || (last == b && a in front)
  {
    var all := front + [last];
    assert forall k :: 0 <= k < |front| ==> all[k] == front[k];
    if a in front && last == b {
      var m :| 0 <= m < |front| && front[m] == a;
      assert all[m] == a && all[|front|] == b;
    }
    if m, n :| 0 <= m < n < |front| && front[m] == a && front[n] == b {
      assert all[m] == a && all[n] == b;
    }
  }

  /** Slides enter the dictionary in the order they appear. */
  lemma {:induction false} KeysFollowAppearance(findings: seq<Finding>, a: Option<int>, b: Option<int>)
    requires a != b && b in SlideKeys(findings)
    ensures KeyBefore(SlideKeys(findings), a, b) <==> AppearsBefore(findings, a, b)
  {
    var front, last := findings[..|findings| - 1], findings[|findings| - 1];
    assert findings == front + [last];
    AppearsSnoc(front, last, a, b);
    KeySnoc(SlideKeys(front), last.slideNum, a, b);
    if b in SlideKeys(front) {
      KeysFollowAppearance(front, a, b);
      var i :| 0 <= i < |front| && front[i].slideNum == b;
      assert !NoneUpTo(front, |front| - 1, b);
    } else {
      assert last.slideNum == b;
      forall i | 0 <= i < |front|
        ensures front[i].slideNum != b
      {
      }
      if a in SlideKeys(front) {
        var i :| 0 <= i < |front| && front[i].slideNum == a;
        assert NoneUpTo(front, i, b);
      }
    }
  }

  /** The first finding of a slide is always kept, so deduplication does not change which slide appears first. */
  lemma {:induction false} FirstIsKept(findings: seq<Finding>, threshold: real, judge: Judge, i: nat)
    requires i < |findings| && NoneUpTo(findings, i - 1, findings[i].slideNum)
    ensures i in KeptPlaces(findings, threshold, judge)
  {
    DedupIsGreedy(findings, threshold, judge);
    var at := KeptPlaces(findings, threshold, judge);
    assert forall a :: 0 <= a < |at| && at[a] < i ==> !DuplicatesAt(findings, threshold, judge, i, at[a]);
  }

  /** Where the first finding of a slide stands among the kept ones. */
  lemma {:induction false} FirstPlace(findings: seq<Finding>, threshold: real, judge: Judge, i: nat, s: Option<int>) returns (c: nat)
    requires i < |findings| && findings[i].slideNum == s
    ensures var at := KeptPlaces(findings, threshold, judge);
      c < |at| && at[c] <= i && findings[at[c]].slideNum == s
  {
    var first := FirstOn(findings, i, s);
    FirstIsKept(findings, threshold, judge, first);
    c :| 0 <= c < |KeptPlaces(findings, threshold, judge)| && KeptPlaces(findings, threshold, judge)[c] == first;
  }

  lemma {:induction false} NoneAmongKept(findings: seq<Finding>, threshold: real, judge: Judge, c: nat, i: nat, s: Option<int>)
    requires i < |findings| && NoneUpTo(findings, i, s)
    requires c < |KeptPlaces(findings, threshold, judge)| && KeptPlaces(findings, threshold, judge)[c] <= i
    ensures NoneUpTo(Deduped(findings, threshold, judge), c, s)
  {
    var at := KeptPlaces(findings, threshold, judge);
    DedupIsGreedy(findings, threshold, judge);
    forall d | 0 <= d <= c
      ensures findings[at[d]].slideNum != s
    {
      assert d < c ==> at[d] < at[c];
    }
  }

  lemma {:induction false} KeptAppearance(findings: seq<Finding>, threshold: real, judge: Judge, a: Option<int>, b: Option<int>)
    requires AppearsBefore(findings, a, b)
    ensures AppearsBefore(Deduped(findings, threshold, judge), a, b)
  {
    var i :| 0 <= i < |findings| && findings[i].slideNum == a && NoneUpTo(findings, i, b);
    var c := FirstPlace(findings, threshold, judge, i, a);
    NoneAmongKept(findings, threshold, judge, c, i, b);
    DedupIsGreedy(findings, threshold, judge);
    assert Deduped(findings, threshold, judge)[c].slideNum == a;
  }

  /** A slide absent from the first kept findings has none in the input up to there. */
  lemma {:induction false} AbsentFromKept(findings: seq<Finding>, threshold: real, judge: Judge, c: nat, j: nat, s: Option<int>)
    requires c < |KeptPlaces(findings, threshold, judge)| && NoneUpTo(Deduped(findings, threshold, judge), c, s)
    requires j < |findings| && findings[j].slideNum == s
    ensures KeptPlaces(findings, threshold, judge)[c] < j
  {
    var at, kept := KeptPlaces(findings, threshold, judge), Deduped(findings, threshold, judge);
    var d := FirstPlace(findings, threshold, judge, j, s);
    DedupIsGreedy(findings, threshold, judge);
    assert kept[d].slideNum == s;
    assert at[c] < at[d];
  }

  lemma {:induction false} AppearanceOfKept(findings: seq<Finding>, threshold: real, judge: Judge, a: Option<int>, b: Option<int>)
    requires AppearsBefore(Deduped(findings, threshold, judge), a, b)
    ensures AppearsBefore(findings, a, b)
  {
    var at, kept := KeptPlaces(findings, threshold, judge), Deduped(findings, threshold, judge);
    var c :| 0 <= c < |kept| && kept[c].slideNum == a && NoneUpTo(kept, c, b);
    forall j: nat | j < |findings| && findings[j].slideNum == b
      ensures at[c] < j
    {
      AbsentFromKept(findings, threshold, judge, c, j, b);
    }
    DedupIsGreedy(findings, threshold, judge);
    assert findings[at[c]].slideNum == a && NoneUpTo(findings, at[c], b);
  }

  lemma {:induction false} DedupKeepsAppearance(findings: seq<Finding>, threshold: real, judge: Judge, a: Option<int>, b: Option<int>)
    ensures AppearsBefore(Deduped(findings, threshold, judge), a, b) <==> AppearsBefore(findings, a, b)
  {
    if AppearsBefore(findings, a, b) {
      KeptAppearance(findings, threshold, judge, a, b);
    }
    if AppearsBefore(Deduped(findings, threshold, judge), a, b) {
      AppearanceOfKept(findings, threshold, judge, a, b);
    }
  }

  // ----- the report

  lemma {:induction false} ShownOnSlide(findings: seq<Finding>, s: Option<int>, max: nat)
    requires max >= 1
    ensures forall x :: x in Shown(Group(findings, s), s, max) ==> x.slideNum == s
  {
    ShownInOrder(findings, s, max);
  }

  lemma {:induction false} CappedOnKeys(keys: seq<Option<int>>, findings: seq<Finding>, max: nat)
    requires max >= 1
    ensures forall x :: x in CappedOver(keys, findings, max) ==> x.slideNum in keys
  {
    if keys != [] {
      CappedOnKeys(keys[..|keys| - 1], findings, max);
      ShownOnSlide(findings, keys[|keys| - 1], max);
    }
  }

  /** The entries of severity `severity` on slide `s`. */
  function Entries(severity: Severity, s: Option<int>): Finding -> bool {
    (f: Finding) => f.severity == severity && f.slideNum == s
  }

  /** Adding the entries of one more slide, given that slide `a`'s do not come after slide `b`'s. */
  lemma {:induction false} FollowsSnoc(earlier: seq<Finding>, shown: seq<Finding>, key: Option<int>, severity: Severity,
                                       a: Option<int>, b: Option<int>)
    requires AllBefore(earlier, Entries(severity, a), Entries(severity, b)) && a != b
    requires forall x :: x in shown ==> x.slideNum == key
    requires key == a ==> forall x :: x in earlier ==> x.slideNum != b
    ensures AllBefore(earlier + shown, Entries(severity, a), Entries(severity, b))
  {
    BeforeConcat(earlier, shown, Entries(severity, a), Entries(severity, b));
    forall k | 0 <= k < |shown|
      ensures shown[k].slideNum == key
    {
      assert shown[k] in shown;
    }
  }

  /** Before the final sort the slides follow one another as their keys do. */
  lemma {:induction false} CappedFollowsKeys(keys: seq<Option<int>>, findings: seq<Finding>, max: nat, severity: Severity,
                                             a: Option<int>, b: Option<int>)
    requires max >= 1 && a != b && !KeyBefore(keys, b, a)
    ensures AllBefore(CappedOver(keys, findings, max), Entries(severity, a), Entries(severity, b))
  {
    if keys != [] {
      var front, key := keys[..|keys| - 1], keys[|keys| - 1];
      assert keys == front + [key];
      KeySnoc(front, key, b, a);
      CappedFollowsKeys(front, findings, max, severity, a, b);
      CappedOnKeys(front, findings, max);
      ShownOnSlide(findings, key, max);
      FollowsSnoc(CappedOver(front, findings, max), Shown(Group(findings, key), key, max), key, severity, a, b);
    }
  }

  /** The key the deck level is sorted under, which is also that of slide -1. */
  function DeckKey(severity: Severity): Key { (SeverityOrder(severity), -1) }

  lemma {:induction false} TiedFollowsKeys(findings: seq<Finding>, threshold: real, max: nat, judge: Judge, severity: Severity,
                                           a: Option<int>, b: Option<int>)
    requires max >= 1 && a != b && (a == None || a == Some(-1)) && (b == None || b == Some(-1))
    requires !KeyBefore(SlideKeys(Deduped(findings, threshold, judge)), b, a)
    ensures AllBefore(Aggregated(findings, threshold, max, judge), Entries(severity, a), Entries(severity, b))
  {
    var deduped := Deduped(findings, threshold, judge);
    var capped, report := Capped(deduped, max), Aggregated(findings, threshold, max, judge);
    var tied := (f: Finding) => ReportKey()(f) == DeckKey(severity);
    CappedFollowsKeys(SlideKeys(deduped), deduped, max, severity, a, b);
    SortFilter(capped, ReportKey(), tied);
    SortIdentity(Filter(capped, tied), ReportKey());
    FilterBefore(capped, tied, Entries(severity, a), Entries(severity, b));
    FilterBefore(report, tied, Entries(severity, a), Entries(severity, b));
  }

  lemma {:induction false} ReportedSlideIsKey(findings: seq<Finding>, threshold: real, max: nat, judge: Judge, i: nat)
    requires max >= 1 && i < |Aggregated(findings, threshold, max, judge)|
    ensures Aggregated(findings, threshold, max, judge)[i].slideNum in SlideKeys(Deduped(findings, threshold, judge))
  {
    var deduped := Deduped(findings, threshold, judge);
    SortKeeps(Capped(deduped, max), ReportKey());
    CappedOnKeys(SlideKeys(deduped), deduped, max);
    assert Aggregated(findings, threshold, max, judge)[i] in Aggregated(findings, threshold, max, judge);
  }

  /** Among equally severe entries of a report, overflow entries included, a deck-level one stands before one of
      slide `s` exactly when `s` is above -1, or is -1 and the deck level appears first in the input. */
  lemma {:induction false} DeckLevelFirstIff(findings: seq<Finding>, threshold: real, max: nat, judge: Judge, i: nat, j: nat)
    requires max >= 1
    requires i < |Aggregated(findings, threshold, max, judge)| && j < |Aggregated(findings, threshold, max, judge)|
    requires var report := Aggregated(findings, threshold, max, judge);
      report[i].severity == report[j].severity && report[i].slideNum.None? && report[j].slideNum.Some?
    ensures var s := Aggregated(findings, threshold, max, judge)[j].slideNum.value;
      i < j <==> s > -1 || (s == -1 && AppearsBefore(findings, None, Some(-1)))
  {
    var report, deduped := Aggregated(findings, threshold, max, judge), Deduped(findings, threshold, judge);
    var s := report[j].slideNum.value;
    ReportIsSorted(findings, threshold, max, judge);
    if i < j {
      assert KeyLe(ReportKey()(report[i]), ReportKey()(report[j]));
    } else {
      assert i != j;
      assert KeyLe(ReportKey()(report[j]), ReportKey()(report[i]));
    }
    if s == -1 {
      TieByAppearance(findings, threshold, max, judge, i, j);
    }
  }

  lemma {:induction false} TieByAppearance(findings: seq<Finding>, threshold: real, max: nat, judge: Judge, i: nat, j: nat)
    requires max >= 1
    requires i < |Aggregated(findings, threshold, max, judge)| && j < |Aggregated(findings, threshold, max, judge)|
    requires var report := Aggregated(findings, threshold, max, judge);
      report[i].severity == report[j].severity && report[i].slideNum == None && report[j].slideNum == Some(-1)
    ensures i < j <==> AppearsBefore(findings, None, Some(-1))
  {
    var report, deduped := Aggregated(findings, threshold, max, judge), Deduped(findings, threshold, judge);
    var keys, severity := SlideKeys(deduped), report[i].severity;
    ReportedSlideIsKey(findings, threshold, max, judge, i);
    ReportedSlideIsKey(findings, threshold, max, judge, j);
    KeysFollowAppearance(deduped, None, Some(-1));
    DedupKeepsAppearance(findings, threshold, judge, None, Some(-1));
    assert Entries(severity, None)(report[i]) && Entries(severity, Some(-1))(report[j]);
    if KeyBefore(keys, None, Some(-1)) {
      OneOrder(keys, None, Some(-1));
      TiedFollowsKeys(findings, threshold, max, judge, severity, None, Some(-1));
    } else {
      TiedFollowsKeys(findings, threshold, max, judge, severity, Some(-1), None);
    }
  }

  lemma {:induction false} OneOrder(keys: seq<Option<int>>, a: Option<int>, b: Option<int>)
    requires a != b && KeyBefore(keys, a, b) && forall m, n :: 0 <= m < n < |keys| ==> keys[m] != keys[n]
    ensures !KeyBefore(keys, b, a)
  {
  }

  // ----- inputs on which the deck level does not come first

  lemma {:induction false} OnlyOneOnSlide(a: Finding, b: Finding)
    requires a.slideNum != b.slideNum
    ensures Group([a, b], a.slideNum) == [a] && Group([a, b], b.slideNum) == [b]
  {
    assert [a] + [b] == [a, b];
    FilterConcat([a], [b], OnSlide(a.slideNum));
    FilterConcat([a], [b], OnSlide(b.slideNum));
    FilterOne(a, OnSlide(a.slideNum));
    FilterOne(b, OnSlide(a.slideNum));
    FilterOne(a, OnSlide(b.slideNum));
    FilterOne(b, OnSlide(b.slideNum));
    SortIdentity([a], SeverityKey());
    SortIdentity([b], SeverityKey());
  }

  lemma {:induction false} TwoKeys(a: Finding, b: Finding)
    requires a.slideNum != b.slideNum
    ensures SlideKeys([a, b]) == [a.slideNum, b.slideNum]
  {
    assert [a, b][..1] == [a] && [a][..0] == [];
    assert SlideKeys([a]) == [a.slideNum];
  }

  lemma {:induction false} TwoAreKept(a: Finding, b: Finding, threshold: real, judge: Judge)
    requires a.slideNum != b.slideNum
    ensures Deduped([a, b], threshold, judge) == [a, b]
  {
    IndependentListIsKept(Enumerated([a, b]), DuplicateTest(threshold, judge));
  }

  lemma {:induction false} TwoAreShown(a: Finding, b: Finding, max: nat)
    requires max >= 1 && a.slideNum != b.slideNum
    ensures Capped([a, b], max) == [a, b]
  {
    TwoKeys(a, b);
    OnlyOneOnSlide(a, b);
    var keys, entries := [a.slideNum, b.slideNum], SlideEntries([a, b], max);
    FlatMapStep(keys, entries, 0);
    FlatMapStep(keys, entries, 1);
    assert keys[..0] == [] && keys[..2] == keys;
    assert entries(keys[0]) == [a] && entries(keys[1]) == [b];
  }

  /** Two findings on different slides reach the report sorted and nothing else. */
  lemma {:induction false} TwoFindings(a: Finding, b: Finding, threshold: real, max: nat, judge: Judge)
    requires max >= 1 && a.slideNum != b.slideNum
    ensures Aggregated([a, b], threshold, max, judge) ==
            if KeyLe(ReportKey()(a), ReportKey()(b)) then [a, b] else [b, a]
  {
    TwoAreKept(a, b, threshold, judge);
    TwoAreShown(a, b, max);
    SortTwo(a, b, ReportKey());
  }

  lemma {:induction false} SortTwo<T>(a: T, b: T, key: T -> Key)
    ensures Sort([a, b], key) == if KeyLe(key(a), key(b)) then [a, b] else [b, a]
  {
    assert [a, b][..1] == [a] && [a][..0] == [];
    assert Sort([a], key) == [a];
    assert Insert([a][..0], b, key) == [b];
  }

  function Major(slideNum: Option<int>): Finding {
    Finding(slideNum, TYPOGRAPHY, MAJOR, Text(""), None)
  }

  /** A finding the model places on slide -2 comes before the deck level; one on slide -1 comes before it or after
      it as the input has it. */
  lemma {:induction false} NegativeSlidesComeFirst(threshold: real, max: nat, judge: Judge)
    requires max >= 1
    ensures Aggregated([Major(None), Major(Some(-2))], threshold, max, judge) == [Major(Some(-2)), Major(None)]
    ensures Aggregated([Major(None), Major(Some(-1))], threshold, max, judge) == [Major(None), Major(Some(-1))]
    ensures Aggregated([Major(Some(-1)), Major(None)], threshold, max, judge) == [Major(Some(-1)), Major(None)]
  {
    TwoFindings(Major(None), Major(Some(-2)), threshold, max, judge);
    TwoFindings(Major(None), Major(Some(-1)), threshold, max, judge);
    TwoFindings(Major(Some(-1)), Major(None), threshold, max, judge);
  }
}
