/** What a report shows and what it hides, with the severities named. */
module ReportContents {
  import opened Wrappers
  import opened Taxonomy
  import opened StableSort
  import opened Aggregate

  function OfSeverity(severity: Severity): Finding -> bool {
    (f: Finding) => f.severity == severity
  }

  /** Throughout a report: every CRITICAL entry before every MAJOR one, every MAJOR before every MINOR one, and among
      equally severe ones lower slide numbers first. */
  lemma {:induction false} ReportRanksSeverities(findings: seq<Finding>, threshold: real, max: nat, judge: Judge, i: nat, j: nat)
    requires max >= 1 && i < j < |Aggregated(findings, threshold, max, judge)|
    ensures var report := Aggregated(findings, threshold, max, judge);
      && AtLeastAsSevere(report[i].severity, report[j].severity)
      && (report[j].severity == CRITICAL ==> report[i].severity == CRITICAL)
      && (report[i].severity == MINOR ==> report[j].severity == MINOR)
      && (report[i].severity == report[j].severity && report[i].slideNum.Some? && report[j].slideNum.Some? ==>
            report[i].slideNum.value <= report[j].slideNum.value)
  {
    var report := Aggregated(findings, threshold, max, judge);
    ReportIsSorted(findings, threshold, max, judge);
    assert KeyLe(ReportKey()(report[i]), ReportKey()(report[j]));
    OrderIsBySeverity(report[i].severity, report[j].severity);
  }

  /** The deduplicated findings of a slide, and its entries in the report, in their orders. */
  function Found(findings: seq<Finding>, threshold: real, judge: Judge, s: Option<int>): seq<Finding> {
    Filter(Deduped(findings, threshold, judge), (f: Finding) => f.slideNum == s)
  }

  function Entries(findings: seq<Finding>, threshold: real, max: nat, judge: Judge, s: Option<int>): seq<Finding>
    requires max >= 1
  {
    Filter(Aggregated(findings, threshold, max, judge), (f: Finding) => f.slideNum == s)
  }

  /** `part` is a stretch at the start of `whole`. */
  ghost predicate Leads<T>(part: seq<T>, whole: seq<T>) {
    |part| <= |whole| && part == whole[..|part|]
  }

  /** `shown` are findings of `found`, of each severity the earliest ones, and nothing of `found` left out is more
      severe than anything in it. */
  ghost predicate ShowsMostSevere(shown: seq<Finding>, found: seq<Finding>) {
    && (forall severity :: Leads(Filter(shown, OfSeverity(severity)), Filter(found, OfSeverity(severity))))
    && multiset(shown) <= multiset(found)
    && (forall x, y :: x in shown && y in multiset(found) - multiset(shown) ==> AtLeastAsSevere(x.severity, y.severity))
  }

  /** All the findings when they fit the quota; otherwise exactly the quota of the most severe ones, then one minor entry
      without a box that says how many are hidden. */
  ghost predicate ShowsOrCounts(entries: seq<Finding>, found: seq<Finding>, s: Option<int>, max: nat)
    requires max >= 1
  {
    if |found| <= max then |entries| == |found| && ShowsMostSevere(entries, found)
    else
      && |entries| == max + 1 && ShowsMostSevere(entries[..max], found)
      && entries[max] == Finding(s, entries[0].category, MINOR, NotShown(|found| - max), None)
  }

  /** Of every slide, and of the deck level, the report shows all findings or the quota of the most severe ones and how
      many it hides. So a CRITICAL finding is hidden only behind a full quota of CRITICAL ones, and a MAJOR one only
      when no MINOR one is shown. */
  lemma {:induction false} ReportShowsMostSevere(findings: seq<Finding>, threshold: real, max: nat, judge: Judge, s: Option<int>)
    requires max >= 1
    ensures ShowsOrCounts(Entries(findings, threshold, max, judge, s), Found(findings, threshold, judge, s), s, max)
  {
    EntriesAreShown(findings, threshold, max, judge, s);
    ShownIsMostSevere(Found(findings, threshold, judge, s), s, max);
  }

  lemma {:induction false} EntriesAreShown(findings: seq<Finding>, threshold: real, max: nat, judge: Judge, s: Option<int>)
    requires max >= 1
    ensures Entries(findings, threshold, max, judge, s) ==
            Shown(Sort(Found(findings, threshold, judge, s), SeverityKey()), s, max)
  {
    ReportShowsEachSlide(findings, threshold, max, judge, s);
    SameFilter(Deduped(findings, threshold, judge), (f: Finding) => f.slideNum == s, OnSlide(s));
    SameFilter(Aggregated(findings, threshold, max, judge), (f: Finding) => f.slideNum == s, OnSlide(s));
  }

  lemma {:induction false} ShownIsMostSevere(found: seq<Finding>, s: Option<int>, max: nat)
    requires max >= 1
    ensures ShowsOrCounts(Shown(Sort(found, SeverityKey()), s, max), found, s, max)
  {
    var group := Sort(found, SeverityKey());
    SortKeeps(found, SeverityKey());
    SortedPrefixIsMostSevere(found, if |group| <= max then |group| else max);
    assert group[..|group|] == group;
  }

  lemma {:induction false} SameFilter<T>(xs: seq<T>, p: T -> bool, q: T -> bool)
    requires forall x :: p(x) == q(x)
    ensures Filter(xs, p) == Filter(xs, q)
  {
    if xs != [] {
      SameFilter(xs[..|xs| - 1], p, q);
    }
  }

  lemma {:induction false} SortedPrefixIsMostSevere(found: seq<Finding>, n: nat)
    requires n <= |found|
    ensures |Sort(found, SeverityKey())| == |found|
    ensures ShowsMostSevere(Sort(found, SeverityKey())[..n], found)
  {
    var group := Sort(found, SeverityKey());
    SortPermutes(found, SeverityKey());
    SortKeeps(found, SeverityKey());
    var shown, rest := group[..n], group[n..];
    assert group == shown + rest;
    forall severity
      ensures Leads(Filter(shown, OfSeverity(severity)), Filter(found, OfSeverity(severity)))
    {
      EarliestOfSeverity(found, shown, rest, severity);
    }
    assert multiset(found) == multiset(shown) + multiset(rest);
    assert multiset(found) - multiset(shown) == multiset(rest);
    forall x: Finding, y: Finding | x in shown && y in multiset(rest)
      ensures AtLeastAsSevere(x.severity, y.severity)
    {
      RestIsLess(found, n, x, y);
    }
  }

  lemma {:induction false} RestIsLess(found: seq<Finding>, n: nat, x: Finding, y: Finding)
    requires n <= |Sort(found, SeverityKey())|
    requires x in Sort(found, SeverityKey())[..n] && y in Sort(found, SeverityKey())[n..]
    ensures AtLeastAsSevere(x.severity, y.severity)
  {
    var group := Sort(found, SeverityKey());
    SortSorted(found, SeverityKey());
    var i :| 0 <= i < n && group[i] == x;
    var j :| n <= j < |group| && group[j] == y;
    assert KeyLe(SeverityKey()(group[i]), SeverityKey()(group[j]));
    OrderIsBySeverity(x.severity, y.severity);
  }

  lemma {:induction false} EarliestOfSeverity(found: seq<Finding>, shown: seq<Finding>, rest: seq<Finding>, severity: Severity)
    requires Sort(found, SeverityKey()) == shown + rest
    ensures Leads(Filter(shown, OfSeverity(severity)), Filter(found, OfSeverity(severity)))
  {
    var keep := OfSeverity(severity);
    SortFilter(found, SeverityKey(), keep);
    var mine := Filter(found, keep);
    forall i, j | 0 <= i < j < |mine|
      ensures KeyLe(SeverityKey()(mine[i]), SeverityKey()(mine[j]))
    {
      assert keep(mine[i]) && keep(mine[j]);
    }
    SortIdentity(mine, SeverityKey());
    FilterConcat(shown, rest, keep);
  }

  /** A CRITICAL finding of a slide is hidden only behind a full quota of CRITICAL ones. */
  lemma {:induction false} CriticalIsHiddenLast(entries: seq<Finding>, found: seq<Finding>, s: Option<int>, max: nat, y: Finding, i: nat)
    requires max >= 1 && ShowsOrCounts(entries, found, s, max) && |found| > max && i < max
    requires y.severity == CRITICAL && y in multiset(found) - multiset(entries[..max])
    ensures entries[i].severity == CRITICAL
  {
    assert entries[..max][i] in entries[..max];
  }
}
