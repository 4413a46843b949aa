/** The deck score and what aggregation does to it. */
module Score {
  import opened Wrappers
  import opened Taxonomy
  import opened GreedyScan
  import opened StableSort
  import opened Sums
  import opened Rounding
  import opened Aggregate

  datatype Weights = Weights(critical: int, major: int, minor: int)

  const DEFAULT_WEIGHTS := Weights(12, 5, 1)

  function WeightOf(weights: Weights, severity: Severity): int {
    match severity
    case CRITICAL => weights.critical
    case MAJOR => weights.major
    case MINOR => weights.minor
  }

  function FindingWeight(weights: Weights): Finding -> int {
    (f: Finding) => WeightOf(weights, f.severity)
  }

  function TotalWeight(weights: Weights, findings: seq<Finding>): int {
    Sum(findings, FindingWeight(weights))
  }

  function RawScore(weights: Weights, findings: seq<Finding>, nSlides: int): real {
    100.0 - TotalWeight(weights, findings) as real / MaxInt(1, nSlides) as real
  }

  function DeckScore(weights: Weights, floor: int, findings: seq<Finding>, nSlides: int): (score: int)
    ensures floor <= score <= MaxInt(floor, 100)
    ensures var raw := RawScore(weights, findings, nSlides);
      floor as real <= raw <= 100.0 ==> raw - 0.5 <= score as real <= raw + 0.5
  {
    MaxInt(floor, MinInt(100, RoundHalfEven(RawScore(weights, findings, nSlides))))
  }

  function Count(findings: seq<Finding>, severity: Severity): nat {
    |Filter(findings, (f: Finding) => f.severity == severity)|
  }

  lemma {:induction false} WeightByCounts(weights: Weights, findings: seq<Finding>)
    ensures TotalWeight(weights, findings) ==
            weights.critical * Count(findings, CRITICAL) + weights.major * Count(findings, MAJOR) + weights.minor * Count(findings, MINOR)
  {
    if findings != [] {
      var front, last := findings[..|findings| - 1], findings[|findings| - 1];
      WeightByCounts(weights, front);
      WeightStep(weights.critical, Count(front, CRITICAL), Count(findings, CRITICAL), last.severity == CRITICAL);
      WeightStep(weights.major, Count(front, MAJOR), Count(findings, MAJOR), last.severity == MAJOR);
      WeightStep(weights.minor, Count(front, MINOR), Count(findings, MINOR), last.severity == MINOR);
    }
  }

  lemma {:induction false} WeightStep(weight: int, before: nat, after: nat, more: bool)
    requires after == before + (if more then 1 else 0)
    ensures weight * after == weight * before + (if more then weight else 0)
  {
  }

  lemma {:induction false} LossTimesSlides(total: int, d: int)
    requires d >= 1
    ensures (total as real / d as real) * d as real == total as real
  {
  }

  /** With the default weights the raw score loses, over the slide count, 12 points for each critical finding, 5 for each
      major and 1 for each minor one; a deck without slides counts as one. */
  lemma {:induction false} DefaultScoreIs(findings: seq<Finding>, nSlides: int)
    ensures var slides := if nSlides < 1 then 1 else nSlides;
      (100.0 - RawScore(DEFAULT_WEIGHTS, findings, nSlides)) * slides as real ==
      (12 * Count(findings, CRITICAL) + 5 * Count(findings, MAJOR) + Count(findings, MINOR)) as real
  {
    WeightByCounts(DEFAULT_WEIGHTS, findings);
    LossTimesSlides(TotalWeight(DEFAULT_WEIGHTS, findings), MaxInt(1, nSlides));
  }

  /** The deck's score is the raw score rounded, the even one of two equally near, kept between the floor and 100. */
  lemma {:induction false} DeckScoreIs(weights: Weights, floor: int, findings: seq<Finding>, nSlides: int)
    requires floor <= 100
    ensures var raw, score := RawScore(weights, findings, nSlides), DeckScore(weights, floor, findings, nSlides);
      && (raw <= floor as real ==> score == floor)
      && (raw >= 100.0 ==> score == 100)
      && (floor as real <= raw <= 100.0 ==> raw - 0.5 <= score as real <= raw + 0.5)
      && (floor as real <= raw <= 100.0 && (score as real == raw - 0.5 || score as real == raw + 0.5) ==> score % 2 == 0)
  {
    var raw := RawScore(weights, findings, nSlides);
    RoundInteger(floor);
    RoundInteger(100);
    if raw <= floor as real {
      RoundMonotone(raw, floor as real);
    } else {
      RoundMonotone(floor as real, raw);
    }
    if raw <= 100.0 {
      RoundMonotone(raw, 100.0);
    } else {
      RoundMonotone(100.0, raw);
    }
  }

  /** A minor finding weighs least, and nothing weighs less than zero. The default weights are like this. */
  predicate MinorWeighsLeast(weights: Weights) {
    0 <= weights.minor <= weights.major && weights.minor <= weights.critical
  }

  function Heaviest(weights: Weights): int {
    MaxInt(weights.critical, MaxInt(weights.major, weights.minor))
  }

  // ----- deduplication and the cap only take weight away

  lemma {:induction false} ScanSum<T>(base: seq<T>, xs: seq<T>, clash: (T, T) -> bool, f: T -> int)
    requires forall i :: 0 <= i < |xs| ==> f(xs[i]) >= 0
    ensures Sum(Scan(base, xs, clash), f) <= Sum(xs, f)
  {
    if xs != [] {
      var kept := Scan(base, xs[..|xs| - 1], clash);
      ScanSum(base, xs[..|xs| - 1], clash, f);
      SumSnoc(kept, xs[|xs| - 1], f);
    }
  }

  function OnTagged(f: Finding -> int): Tagged -> int {
    (t: Tagged) => f(t.1)
  }

  lemma {:induction false} UntaggedSum(tagged: seq<Tagged>, f: Finding -> int)
    ensures Sum(Untagged(tagged), f) == Sum(tagged, OnTagged(f))
  {
    if tagged != [] {
      UntaggedSum(tagged[..|tagged| - 1], f);
      assert Untagged(tagged)[..|tagged| - 1] == Untagged(tagged[..|tagged| - 1]);
    }
  }

  lemma {:induction false} DedupSum(findings: seq<Finding>, test: (Tagged, Tagged) -> bool, f: Finding -> int)
    requires forall x: Finding :: f(x) >= 0
    ensures Sum(Untagged(Scan([], Enumerated(findings), test)), f) <= Sum(findings, f)
  {
    var tagged := Enumerated(findings);
    ScanSum([], tagged, test, OnTagged(f));
    UntaggedSum(tagged, f);
    UntaggedSum(Scan([], tagged, test), f);
    assert Untagged(tagged) == findings;
  }

  lemma {:induction false} DedupWeight(weights: Weights, findings: seq<Finding>, threshold: real, judge: Judge)
    requires MinorWeighsLeast(weights)
    ensures TotalWeight(weights, Deduped(findings, threshold, judge)) <= TotalWeight(weights, findings)
  {
    DedupSum(findings, DuplicateTest(threshold, judge), FindingWeight(weights));
  }

  lemma {:induction false} TimesMono(a: int, m: nat, n: nat)
    requires a >= 0 && m <= n
    ensures a * m <= a * n
  {
  }

  lemma {:induction false} TimesNext(n: nat, a: int)
    ensures (n + 1) * a == n * a + a
  {
  }

  /** The hidden findings weigh at least as much as the entry that replaces them. */
  lemma {:induction false} ShownWeight(weights: Weights, group: seq<Finding>, s: Option<int>, max: nat)
    requires max >= 1 && MinorWeighsLeast(weights)
    ensures TotalWeight(weights, Shown(group, s, max)) <= TotalWeight(weights, group)
  {
    var f := FindingWeight(weights);
    if |group| > max {
      var kept, hidden := group[..max], group[max..];
      assert kept + hidden == group;
      SumConcat(kept, hidden, f);
      SumSnoc(kept, MiscFinding(s, group[0].category, |group| - max), f);
      SumBounds(hidden, f, weights.minor, Heaviest(weights));
      TimesMono(weights.minor, 1, |hidden|);
    }
  }

  /** The most one slide can weigh in a report: a full quota of the heaviest kind and one minor entry. */
  function Quota(weights: Weights, max: nat): int {
    Heaviest(weights) * max + weights.minor
  }

  lemma {:induction false} ShownQuota(weights: Weights, group: seq<Finding>, s: Option<int>, max: nat)
    requires max >= 1 && MinorWeighsLeast(weights)
    ensures TotalWeight(weights, Shown(group, s, max)) <= Quota(weights, max)
  {
    var f := FindingWeight(weights);
    var kept := if |group| <= max then group else group[..max];
    SumBounds(kept, f, 0, Heaviest(weights));
    TimesMono(Heaviest(weights), |kept|, max);
    if |group| > max {
      SumSnoc(kept, MiscFinding(s, group[0].category, |group| - max), f);
    }
  }

  lemma {:induction false} CappedWeight(weights: Weights, keys: seq<Option<int>>, findings: seq<Finding>, max: nat)
    requires max >= 1 && MinorWeighsLeast(weights)
    ensures TotalWeight(weights, CappedOver(keys, findings, max)) <= GroupSums(keys, findings, FindingWeight(weights))
  {
    if keys != [] {
      var front, key := keys[..|keys| - 1], keys[|keys| - 1];
      CappedWeight(weights, front, findings, max);
      SumConcat(CappedOver(front, findings, max), Shown(Group(findings, key), key, max), FindingWeight(weights));
      ShownWeight(weights, Group(findings, key), key, max);
    }
  }

  lemma {:induction false} CappedQuota(weights: Weights, keys: seq<Option<int>>, findings: seq<Finding>, max: nat, quota: int)
    requires max >= 1 && MinorWeighsLeast(weights) && quota == Quota(weights, max)
    ensures TotalWeight(weights, CappedOver(keys, findings, max)) <= |keys| * quota
  {
    if keys != [] {
      var front, key := keys[..|keys| - 1], keys[|keys| - 1];
      CappedQuota(weights, front, findings, max, quota);
      SumConcat(CappedOver(front, findings, max), Shown(Group(findings, key), key, max), FindingWeight(weights));
      ShownQuota(weights, Group(findings, key), key, max);
      TimesNext(|front|, quota);
    }
  }

  /** The aggregated report weighs no more than what went in, and at most a full quota and one minor entry for
      every slide that has findings. */
  lemma {:induction false} AggregationWeight(weights: Weights, findings: seq<Finding>, threshold: real, max: nat, judge: Judge)
    requires max >= 1 && MinorWeighsLeast(weights)
    ensures TotalWeight(weights, Aggregated(findings, threshold, max, judge)) <= TotalWeight(weights, findings)
    ensures TotalWeight(weights, Aggregated(findings, threshold, max, judge))
         <= |SlideKeys(Deduped(findings, threshold, judge))| * Quota(weights, max)
  {
    var deduped := Deduped(findings, threshold, judge);
    SumSort(Capped(deduped, max), ReportKey(), FindingWeight(weights));
    CappedWeight(weights, SlideKeys(deduped), deduped, max);
    CappedQuota(weights, SlideKeys(deduped), deduped, max, Quota(weights, max));
    GroupSumsAll(deduped, FindingWeight(weights));
    DedupWeight(weights, findings, threshold, judge);
  }

  // ----- the score

  lemma {:induction false} DivisionMonotone(a: int, b: int, d: int)
    requires a <= b && d >= 1
    ensures a as real / d as real <= b as real / d as real
  {
    var qa, qb := a as real / d as real, b as real / d as real;
    assert qa * d as real == a as real && qb * d as real == b as real;
    assert (qb - qa) * d as real >= 0.0;
  }

  /** Less weight never scores lower. */
  lemma {:induction false} LighterScoresHigher(weights: Weights, floor: int, one: seq<Finding>, other: seq<Finding>, nSlides: int)
    requires TotalWeight(weights, one) <= TotalWeight(weights, other)
    ensures DeckScore(weights, floor, one, nSlides) >= DeckScore(weights, floor, other, nSlides)
  {
    DivisionMonotone(TotalWeight(weights, one), TotalWeight(weights, other), MaxInt(1, nSlides));
    RoundMonotone(RawScore(weights, other, nSlides), RawScore(weights, one, nSlides));
  }

  /** Aggregation never lowers the score. */
  lemma {:induction false} AggregationNeverLowersScore(weights: Weights, floor: int, findings: seq<Finding>, threshold: real, max: nat,
                                    judge: Judge, nSlides: int)
    requires max >= 1 && MinorWeighsLeast(weights)
    ensures DeckScore(weights, floor, Aggregated(findings, threshold, max, judge), nSlides)
         >= DeckScore(weights, floor, findings, nSlides)
  {
    AggregationWeight(weights, findings, threshold, max, judge);
    LighterScoresHigher(weights, floor, Aggregated(findings, threshold, max, judge), findings, nSlides);
  }

  /** With the default weights the raw score of a report loses at most 12 * max + 1 per slide with findings. */
  lemma {:induction false} DefaultScoreBound(findings: seq<Finding>, threshold: real, max: nat, judge: Judge, nSlides: int)
    requires max >= 1
    ensures MinorWeighsLeast(DEFAULT_WEIGHTS) && Quota(DEFAULT_WEIGHTS, max) == 12 * max + 1
    ensures var slides := |SlideKeys(Deduped(findings, threshold, judge))|;
      RawScore(DEFAULT_WEIGHTS, Aggregated(findings, threshold, max, judge), nSlides)
        >= 100.0 - (slides * Quota(DEFAULT_WEIGHTS, max)) as real / MaxInt(1, nSlides) as real
  {
    AggregationWeight(DEFAULT_WEIGHTS, findings, threshold, max, judge);
    DivisionMonotone(TotalWeight(DEFAULT_WEIGHTS, Aggregated(findings, threshold, max, judge)),
                     |SlideKeys(Deduped(findings, threshold, judge))| * Quota(DEFAULT_WEIGHTS, max), MaxInt(1, nSlides));
  }
}
