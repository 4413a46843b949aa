/** Grouping near-identical findings across slides by word overlap of their titles. */
module Recurring {
  import opened Wrappers
  import opened Taxonomy
  import opened GreedyScan
  import opened StableSort

  /** A finding with the set of words of its title. */
  datatype Finding = Finding(slideNum: Option<int>, category: Category, severity: Severity, title: string, tokens: set<string>)

  /** A finding attributed to a slide. */
  type SlideFinding = f: Finding | f.slideNum.Some? witness Finding(Some(1), TYPOGRAPHY, MINOR, "", {})

  // ----- word overlap

  /** Shared words over all words; nothing is similar to a title without words. */
  function Jaccard(a: set<string>, b: set<string>): real {
    if a == {} || b == {} then 0.0 else |a * b| as real / |a + b| as real
  }

  lemma {:induction false} UnionSize(a: set<string>, b: set<string>)
    ensures |a + b| == |a| + |b| - |a * b|
  {
    assert a + b == a + (b - a);
    assert b == (b - a) + (a * b);
  }

  /** The source counts the shared words one by one and gets the union's size by inclusion and exclusion. */
  method JaccardByCounting(a: set<string>, b: set<string>) returns (score: real)
    ensures score == Jaccard(a, b)
  {
    if |a| == 0 || |b| == 0 {
      return 0.0;
    }
    var intersection := 0;
    var rest := a;
    while rest != {}
      invariant rest <= a
      invariant intersection == |(a - rest) * b|
      decreases rest
    {
      var token :| token in rest;
      ghost var seen := (a - rest) * b;
      if token in b {
        intersection := intersection + 1;
        assert (a - (rest - {token})) * b == seen + {token};
      } else {
        assert (a - (rest - {token})) * b == seen;
      }
      rest := rest - {token};
    }
    assert (a - rest) * b == a * b;
    UnionSize(a, b);
    var union := |a| + |b| - intersection;
    score := if union == 0 then 0.0 else intersection as real / union as real;
  }

  lemma {:induction false} JaccardFacts(a: set<string>, b: set<string>)
    ensures Jaccard(a, b) == Jaccard(b, a)
    ensures 0.0 <= Jaccard(a, b) <= 1.0
    ensures Jaccard(a, b) == 1.0 <==> a == b && a != {}
  {
    assert a * b == b * a && a + b == b + a;
    if a != {} && b != {} {
      UnionSize(a, b);
      Subset(a * b, a);
      Subset(a * b, b);
      FractionRange(|a * b|, |a + b|);
      if a == b {
        assert a * b == a && a + b == a;
      }
    }
  }

  lemma {:induction false} FractionRange(n: nat, d: nat)
    requires n <= d && 0 < d
    ensures 0.0 <= n as real / d as real <= 1.0
    ensures n as real / d as real == 1.0 <==> n == d
  {
    var q, whole := n as real / d as real, d as real;
    assert q * whole == n as real;
    assert q < 0.0 ==> q * whole < 0.0;
    assert q > 1.0 ==> q * whole > whole;
    assert n == d ==> q * whole == 1.0 * whole;
  }

  lemma {:induction false} Subset(s: set<string>, t: set<string>)
    requires s <= t
    ensures |s| <= |t| && (|s| == |t| ==> s == t)
  {
    assert t == s + (t - s);
  }

  // ----- groups

  datatype Group = Group(category: Category, tokens: set<string>, members: seq<SlideFinding>)

  /** When a finding joins a group of the given category and words. */
  type Test = (SlideFinding, Category, set<string>) -> bool

  function JoinTest(similarity: real): Test {
    (f: SlideFinding, category: Category, tokens: set<string>) =>
      category == f.category && Jaccard(tokens, f.tokens) >= similarity
  }

  /** The first group from `k` on that takes the finding. */
  function FirstMatch(groups: seq<Group>, f: SlideFinding, joins: Test, k: nat): (m: Option<nat>)
    requires k <= |groups|
    ensures m.Some? ==> k <= m.value < |groups| && joins(f, groups[m.value].category, groups[m.value].tokens)
    ensures m.Some? ==> forall i :: k <= i < m.value ==> !joins(f, groups[i].category, groups[i].tokens)
    ensures m.None? ==> forall i :: k <= i < |groups| ==> !joins(f, groups[i].category, groups[i].tokens)
    decreases |groups| - k
  {
    if k == |groups| then None
    else if joins(f, groups[k].category, groups[k].tokens) then Some(k)
    else FirstMatch(groups, f, joins, k + 1)
  }

  function AddTo(groups: seq<Group>, f: SlideFinding, joins: Test): seq<Group> {
    var m := FirstMatch(groups, f, joins, 0);
    if m.Some? then groups[m.value := groups[m.value].(members := groups[m.value].members + [f])]
    else groups + [Group(f.category, f.tokens, [f])]
  }

  function Grouped(findings: seq<SlideFinding>, joins: Test): seq<Group> {
    if findings == [] then [] else AddTo(Grouped(findings[..|findings| - 1], joins), findings[|findings| - 1], joins)
  }

  /** A group is led by its founder, whose words and category it keeps; the others joined on them, and on no
      earlier group. */
  ghost predicate Led(groups: seq<Group>, k: nat, joins: Test)
    requires k < |groups|
  {
    var g := groups[k];
    && g.members != [] && g.members[0].category == g.category && g.members[0].tokens == g.tokens
    && (forall i :: 0 < i < |g.members| ==> joins(g.members[i], g.category, g.tokens))
    && (forall i, j :: 0 <= i < |g.members| && 0 <= j < k ==>
          !joins(g.members[i], groups[j].category, groups[j].tokens))
  }

  function AllMembers(groups: seq<Group>): multiset<SlideFinding> {
    if groups == [] then multiset{}
    else AllMembers(groups[..|groups| - 1]) + multiset(groups[|groups| - 1].members)
  }

  lemma {:induction false} AllMembersUpdate(groups: seq<Group>, k: nat, f: SlideFinding)
    requires k < |groups|
    ensures AllMembers(groups[k := groups[k].(members := groups[k].members + [f])]) == AllMembers(groups) + multiset{f}
    decreases |groups|
  {
    var n := |groups| - 1;
    var updated := groups[k := groups[k].(members := groups[k].members + [f])];
    if k < n {
      AllMembersUpdate(groups[..n], k, f);
      assert updated[..n] == groups[..n][k := groups[k].(members := groups[k].members + [f])];
    } else {
      assert updated[..n] == groups[..n];
    }
  }

  lemma {:induction false} AddToCounts(groups: seq<Group>, f: SlideFinding, joins: Test)
    ensures AllMembers(AddTo(groups, f, joins)) == AllMembers(groups) + multiset{f}
  {
    var m := FirstMatch(groups, f, joins, 0);
    if m.Some? {
      AllMembersUpdate(groups, m.value, f);
    } else {
      assert AddTo(groups, f, joins)[..|groups|] == groups;
    }
  }

  lemma {:induction false} AddToLed(groups: seq<Group>, f: SlideFinding, joins: Test, k: nat)
    requires forall j :: 0 <= j < |groups| ==> Led(groups, j, joins)
    requires k < |AddTo(groups, f, joins)|
    ensures Led(AddTo(groups, f, joins), k, joins)
  {
    var after := AddTo(groups, f, joins);
    assert forall j :: 0 <= j < |groups| ==> after[j].category == groups[j].category && after[j].tokens == groups[j].tokens;
    if k < |groups| {
      assert Led(groups, k, joins);
    }
  }

  lemma {:induction false} MultisetSnoc(front: seq<SlideFinding>, f: SlideFinding)
    ensures multiset(front + [f]) == multiset(front) + multiset{f}
  {
  }

  lemma {:induction false} PartitionStep(groups: seq<Group>, front: seq<SlideFinding>, f: SlideFinding, joins: Test)
    requires AllMembers(groups) == multiset(front)
    ensures AllMembers(AddTo(groups, f, joins)) == multiset(front + [f])
  {
    AddToCounts(groups, f, joins);
    MultisetSnoc(front, f);
  }

  /** Every finding is in exactly one group. */
  lemma {:induction false} GroupedPartitions(findings: seq<SlideFinding>, joins: Test)
    ensures AllMembers(Grouped(findings, joins)) == multiset(findings)
  {
    if findings != [] {
      var front, f := findings[..|findings| - 1], findings[|findings| - 1];
      GroupedPartitions(front, joins);
      PartitionStep(Grouped(front, joins), front, f, joins);
      assert findings == front + [f];
    }
  }

  /** Every group is properly led. */
  lemma {:induction false} GroupedLed(findings: seq<SlideFinding>, joins: Test)
    ensures forall k :: 0 <= k < |Grouped(findings, joins)| ==> Led(Grouped(findings, joins), k, joins)
  {
    if findings != [] {
      var front, f := findings[..|findings| - 1], findings[|findings| - 1];
      GroupedLed(front, joins);
      forall k | 0 <= k < |Grouped(findings, joins)|
        ensures Led(Grouped(findings, joins), k, joins)
      {
        AddToLed(Grouped(front, joins), f, joins, k);
      }
    }
  }

  function RepeatTest(joins: Test): (SlideFinding, SlideFinding) -> bool {
    (f: SlideFinding, founder: SlideFinding) => joins(f, founder.category, founder.tokens)
  }

  /** The finding a group was founded on. */
  ghost predicate FoundedBy(groups: seq<Group>, founders: seq<SlideFinding>) {
    && |founders| == |groups|
    && forall k :: 0 <= k < |groups| ==>
         groups[k].members != [] && groups[k].members[0] == founders[k]
         && groups[k].category == founders[k].category && groups[k].tokens == founders[k].tokens
  }

  lemma {:induction false} AddToFounders(groups: seq<Group>, founders: seq<SlideFinding>, f: SlideFinding, joins: Test)
    requires FoundedBy(groups, founders)
    ensures ClashesWith(f, founders, RepeatTest(joins)) <==> FirstMatch(groups, f, joins, 0).Some?
    ensures FoundedBy(AddTo(groups, f, joins),
                      if ClashesWith(f, founders, RepeatTest(joins)) then founders else founders + [f])
  {
    var test := RepeatTest(joins);
    assert forall k :: 0 <= k < |groups| ==>
      (test(f, founders[k]) <==> joins(f, groups[k].category, groups[k].tokens));
  }

  /** The founders are the greedy scan of the findings: no founder joins an earlier one, and every other finding
      joins a founder before it. */
  lemma {:induction false} FoundersAreTheScan(findings: seq<SlideFinding>, joins: Test)
    ensures FoundedBy(Grouped(findings, joins), Scan([], findings, RepeatTest(joins)))
  {
    if findings != [] {
      var front, f := findings[..|findings| - 1], findings[|findings| - 1];
      FoundersAreTheScan(front, joins);
      AddToFounders(Grouped(front, joins), Scan([], front, RepeatTest(joins)), f, joins);
    }
  }

  // ----- the report

  datatype RecurringGroup = RecurringGroup(category: Category, severity: Severity, title: string, slideNums: seq<int>)

  function Distinct(nums: seq<int>): (d: seq<int>)
    ensures forall n :: n in d <==> n in nums
    ensures forall i, j :: 0 <= i < j < |d| ==> d[i] != d[j]
  {
    if nums == [] then []
    else
      var rest, n := Distinct(nums[..|nums| - 1]), nums[|nums| - 1];
      assert nums == nums[..|nums| - 1] + [n];
      if n in rest then rest else rest + [n]
  }

  function NumberKey(): int -> Key { (n: int) => (n, 0) }

  function SlideNums(members: seq<SlideFinding>): (nums: seq<int>)
    ensures |nums| == |members| && forall i :: 0 <= i < |members| ==> Some(nums[i]) == members[i].slideNum
  {
    seq(|members|, i requires 0 <= i < |members| => var f: SlideFinding := members[i]; f.slideNum.value)
  }

  /** The distinct slides of the members, ascending. */
  function SlidesOf(members: seq<SlideFinding>): seq<int> {
    Sort(Distinct(SlideNums(members)), NumberKey())
  }

  ghost predicate OnSlide(members: seq<SlideFinding>, n: int) {
    exists i :: 0 <= i < |members| && members[i].slideNum == Some(n)
  }

  lemma {:induction false} SlidesAscending(members: seq<SlideFinding>)
    ensures forall i, j :: 0 <= i < j < |SlidesOf(members)| ==> SlidesOf(members)[i] < SlidesOf(members)[j]
    ensures forall n :: n in SlidesOf(members) <==> OnSlide(members, n)
  {
    var nums := SlideNums(members);
    var d, slides := Distinct(nums), SlidesOf(members);
    SortSorted(d, NumberKey());
    SortKeeps(d, NumberKey());
    SortPermutes(d, NumberKey());
    forall n
      ensures n in slides <==> OnSlide(members, n)
    {
      if n in nums {
        var i :| 0 <= i < |nums| && nums[i] == n;
        assert members[i].slideNum == Some(n);
      }
      if OnSlide(members, n) {
        var i :| 0 <= i < |members| && members[i].slideNum == Some(n);
        assert nums[i] == n;
      }
    }
    DistinctStays(d, slides);
    forall i, j | 0 <= i < j < |slides|
      ensures slides[i] < slides[j]
    {
      assert KeyLe(NumberKey()(slides[i]), NumberKey()(slides[j]));
    }
  }

  lemma {:induction false} DistinctStays(d: seq<int>, s: seq<int>)
    requires multiset(d) == multiset(s) && forall i, j :: 0 <= i < j < |d| ==> d[i] != d[j]
    ensures forall i, j :: 0 <= i < j < |s| ==> s[i] != s[j]
  {
    forall i, j | 0 <= i < j < |s|
      ensures s[i] != s[j]
    {
      CountAtMostOne(d, s[i]);
      CountTwo(s, i, j);
    }
  }

  lemma {:induction false} CountTwo(s: seq<int>, i: nat, j: nat)
    requires i < j < |s|
    ensures s[i] == s[j] ==> multiset(s)[s[i]] >= 2
  {
    assert s == s[..j] + [s[j]] + s[j + 1..];
    assert s[i] in s[..j];
  }

  lemma {:induction false} CountAtMostOne(d: seq<int>, n: int)
    requires forall i, j :: 0 <= i < j < |d| ==> d[i] != d[j]
    ensures multiset(d)[n] <= 1
  {
    if d != [] {
      CountAtMostOne(d[1..], n);
      assert d == [d[0]] + d[1..];
      if d[0] == n {
        assert n !in d[1..];
      }
    }
  }

  /** The worst severity among the members. */
  function Worst(members: seq<SlideFinding>): (worst: Severity)
    requires members != []
    ensures exists i :: 0 <= i < |members| && members[i].severity == worst
    ensures forall i :: 0 <= i < |members| ==> AtLeastAsSevere(worst, members[i].severity)
    ensures worst == CRITICAL <==> exists i :: 0 <= i < |members| && members[i].severity == CRITICAL
    ensures worst == MINOR <==> forall i :: 0 <= i < |members| ==> members[i].severity == MINOR
  {
    var last := members[|members| - 1];
    if |members| == 1 then last.severity
    else
      var earlier := Worst(members[..|members| - 1]);
      if SeverityOrder(last.severity) < SeverityOrder(earlier) then last.severity else earlier
  }

  /** The first of the shortest titles. */
  function Shortest(members: seq<SlideFinding>): (title: string)
    requires members != []
    ensures exists i :: 0 <= i < |members| && members[i].title == title && forall j :: 0 <= j < i ==> |members[j].title| > |title|
    ensures forall i :: 0 <= i < |members| ==> |title| <= |members[i].title|
  {
    var n := |members| - 1;
    var last := members[n];
    if n == 0 then last.title
    else
      var front := members[..n];
      var earlier := Shortest(front);
      assert forall j :: 0 <= j < n ==> members[j] == front[j];
      if |last.title| < |earlier| then last.title else earlier
  }

  ghost predicate Reportable(groups: seq<Group>) {
    forall k :: 0 <= k < |groups| ==> groups[k].members != []
  }

  function Summary(g: Group): RecurringGroup
    requires g.members != []
  {
    RecurringGroup(g.category, Worst(g.members), Shortest(g.members), SlidesOf(g.members))
  }

  /** The groups spanning enough slides, summarised, in founding order. */
  function Summaries(groups: seq<Group>, minSlides: int): seq<RecurringGroup>
    requires Reportable(groups)
  {
    if groups == [] then []
    else
      var earlier, g := Summaries(groups[..|groups| - 1], minSlides), groups[|groups| - 1];
      if |SlidesOf(g.members)| < minSlides then earlier else earlier + [Summary(g)]
  }

  function ReportKey(): RecurringGroup -> Key {
    (g: RecurringGroup) => (SeverityOrder(g.severity), -|g.slideNums|)
  }

  function PerSlide(findings: seq<Finding>): seq<SlideFinding> {
    Filter<Finding>(findings, (f: Finding) => f.slideNum.Some?)
  }

  lemma {:induction false} GroupedReportable(findings: seq<SlideFinding>, joins: Test)
    ensures Reportable(Grouped(findings, joins))
  {
    GroupedLed(findings, joins);
    var groups := Grouped(findings, joins);
    forall k | 0 <= k < |groups|
      ensures groups[k].members != []
    {
      assert Led(groups, k, joins);
    }
  }

  function RecurringPatterns(findings: seq<Finding>, minSlides: int, similarity: real): seq<RecurringGroup> {
    GroupedReportable(PerSlide(findings), JoinTest(similarity));
    Sort(Summaries(Grouped(PerSlide(findings), JoinTest(similarity)), minSlides), ReportKey())
  }

  method FindRecurringPatterns(findings: seq<Finding>, minSlides: int, similarity: real) returns (report: seq<RecurringGroup>)
    ensures report == RecurringPatterns(findings, minSlides, similarity)
  {
    var perSlide := PerSlide(findings);
    var groups := CollectGroups(perSlide, similarity);
    GroupedReportable(perSlide, JoinTest(similarity));
    report := [];
    for k := 0 to |groups|
      invariant report == Summaries(groups[..k], minSlides)
    {
      SummariesStep(groups, k, minSlides);
      var entry := Summarise(groups[k]);
      if |entry.slideNums| < minSlides {
        continue;
      }
      report := report + [entry];
    }
    assert groups[..|groups|] == groups;
    report := Sort(report, ReportKey());
  }

  lemma {:induction false} SummariesStep(groups: seq<Group>, k: nat, minSlides: int)
    requires Reportable(groups) && k < |groups|
    ensures Summaries(groups[..k + 1], minSlides) ==
            if |Summary(groups[k]).slideNums| < minSlides then Summaries(groups[..k], minSlides)
            else Summaries(groups[..k], minSlides) + [Summary(groups[k])]
  {
    assert groups[..k + 1][..k] == groups[..k];
  }

  method Summarise(g: Group) returns (summary: RecurringGroup)
    requires g.members != []
    ensures summary == Summary(g)
  {
    var slideNums := SlidesOf(g.members);
    var severity := WorstOf(g.members);
    var title := ShortestOf(g.members);
    summary := RecurringGroup(g.category, severity, title, slideNums);
  }

  method WorstOf(members: seq<SlideFinding>) returns (worst: Severity)
    requires members != []
    ensures worst == Worst(members)
  {
    worst := members[0].severity;
    for n := 1 to |members|
      invariant worst == Worst(members[..n])
    {
      assert members[..n + 1][..n] == members[..n];
      if SeverityOrder(members[n].severity) < SeverityOrder(worst) {
        worst := members[n].severity;
      }
    }
    assert members[..|members|] == members;
  }

  method ShortestOf(members: seq<SlideFinding>) returns (title: string)
    requires members != []
    ensures title == Shortest(members)
  {
    title := members[0].title;
    for n := 1 to |members|
      invariant title == Shortest(members[..n])
    {
      assert members[..n + 1][..n] == members[..n];
      if |members[n].title| < |title| {
        title := members[n].title;
      }
    }
    assert members[..|members|] == members;
  }

  method CollectGroups(perSlide: seq<SlideFinding>, similarity: real) returns (groups: seq<Group>)
    ensures groups == Grouped(perSlide, JoinTest(similarity))
  {
    ghost var joins := JoinTest(similarity);
    groups := [];
    for n := 0 to |perSlide|
      invariant groups == Grouped(perSlide[..n], joins)
    {
      assert perSlide[..n + 1][..n] == perSlide[..n];
      var finding := perSlide[n];
      var k := 0;
      while k < |groups| && !(groups[k].category == finding.category && Jaccard(groups[k].tokens, finding.tokens) >= similarity)
        invariant 0 <= k <= |groups|
        invariant FirstMatch(groups, finding, joins, 0) == FirstMatch(groups, finding, joins, k)
      {
        k := k + 1;
      }
      if k < |groups| {
        groups := groups[k := groups[k].(members := groups[k].members + [finding])];
      } else {
        groups := groups + [Group(finding.category, finding.tokens, [finding])];
      }
    }
    assert perSlide[..|perSlide|] == perSlide;
  }

  // ----- what a report satisfies

  ghost predicate Describes(summary: RecurringGroup, g: Group, minSlides: int) {
    && summary.category == g.category && g.members != []
    && |summary.slideNums| >= minSlides
    && (forall i, j :: 0 <= i < j < |summary.slideNums| ==> summary.slideNums[i] < summary.slideNums[j])
    && (forall n :: n in summary.slideNums <==> OnSlide(g.members, n))
    && (exists i :: 0 <= i < |g.members| && g.members[i].severity == summary.severity)
    && (forall i :: 0 <= i < |g.members| ==> AtLeastAsSevere(summary.severity, g.members[i].severity))
    && (exists i :: 0 <= i < |g.members| && g.members[i].title == summary.title)
    && (forall i :: 0 <= i < |g.members| ==> |summary.title| <= |g.members[i].title|)
  }

  lemma {:induction false} SummaryDescribes(g: Group, minSlides: int)
    requires g.members != []
    requires |SlidesOf(g.members)| >= minSlides
    ensures Describes(Summary(g), g, minSlides)
  {
    SlidesAscending(g.members);
  }

  ghost predicate SomeGroupDescribed(summary: RecurringGroup, groups: seq<Group>, minSlides: int) {
    exists k :: 0 <= k < |groups| && Describes(summary, groups[k], minSlides)
  }

  lemma {:induction false} SummariesDescribe(groups: seq<Group>, minSlides: int, summary: RecurringGroup)
    requires Reportable(groups) && summary in Summaries(groups, minSlides)
    ensures SomeGroupDescribed(summary, groups, minSlides)
  {
    var n := |groups| - 1;
    if summary in Summaries(groups[..n], minSlides) {
      SummariesDescribe(groups[..n], minSlides, summary);
      var k :| 0 <= k < n && Describes(summary, groups[..n][k], minSlides);
      assert Describes(summary, groups[k], minSlides);
    } else {
      SummaryDescribes(groups[n], minSlides);
    }
  }

  /** Every reported entry describes a group spanning enough slides: ascending distinct slides, the worst severity
      and a shortest title of its members; the entries are sorted by severity, then by most slides. */
  lemma {:induction false} ReportDescribesGroups(findings: seq<Finding>, minSlides: int, similarity: real)
    ensures var report := RecurringPatterns(findings, minSlides, similarity);
      && Sorted(report, ReportKey())
      && forall r :: 0 <= r < |report| ==>
           SomeGroupDescribed(report[r], Grouped(PerSlide(findings), JoinTest(similarity)), minSlides)
  {
    var groups := Grouped(PerSlide(findings), JoinTest(similarity));
    GroupedReportable(PerSlide(findings), JoinTest(similarity));
    var summaries, report := Summaries(groups, minSlides), RecurringPatterns(findings, minSlides, similarity);
    SortSorted(summaries, ReportKey());
    SortKeeps(summaries, ReportKey());
    forall r | 0 <= r < |report|
      ensures SomeGroupDescribed(report[r], groups, minSlides)
    {
      assert report[r] in summaries;
      SummariesDescribe(groups, minSlides, report[r]);
    }
  }

  lemma {:induction false} SummariesComplete(groups: seq<Group>, minSlides: int, k: nat)
    requires Reportable(groups) && k < |groups| && |SlidesOf(groups[k].members)| >= minSlides
    ensures Summary(groups[k]) in Summaries(groups, minSlides)
    decreases |groups|
  {
    if k < |groups| - 1 {
      SummariesComplete(groups[..|groups| - 1], minSlides, k);
    }
  }

  /** Every group spanning enough slides is reported. */
  lemma {:induction false} ReportIsComplete(findings: seq<Finding>, minSlides: int, similarity: real, k: nat)
    requires k < |Grouped(PerSlide(findings), JoinTest(similarity))|
    requires |SlidesOf(Grouped(PerSlide(findings), JoinTest(similarity))[k].members)| >= minSlides
    ensures var groups := Grouped(PerSlide(findings), JoinTest(similarity));
      Reportable(groups) && Summary(groups[k]) in RecurringPatterns(findings, minSlides, similarity)
  {
    GroupedReportable(PerSlide(findings), JoinTest(similarity));
    var groups := Grouped(PerSlide(findings), JoinTest(similarity));
    SummariesComplete(groups, minSlides, k);
    SortKeeps(Summaries(groups, minSlides), ReportKey());
  }

  /** Entries are ordered by severity, and equally severe ones by the number of slides, most first. */
  lemma {:induction false} ReportRanks(findings: seq<Finding>, minSlides: int, similarity: real, i: nat, j: nat)
    requires i < j < |RecurringPatterns(findings, minSlides, similarity)|
    ensures var report := RecurringPatterns(findings, minSlides, similarity);
      && AtLeastAsSevere(report[i].severity, report[j].severity)
      && (report[i].severity == report[j].severity ==> |report[i].slideNums| >= |report[j].slideNums|)
  {
    var report := RecurringPatterns(findings, minSlides, similarity);
    ReportDescribesGroups(findings, minSlides, similarity);
    assert KeyLe(ReportKey()(report[i]), ReportKey()(report[j]));
    OrderIsBySeverity(report[i].severity, report[j].severity);
  }

  /** The groups behind a report: each slide-attributed finding is in them as often as in the input; every member has
      its group's category and, unless it founded the group, shares at least the given part of its words with the
      founder's; with no earlier group of its category does it share that much. */
  lemma {:induction false} GroupsByTitle(findings: seq<Finding>, similarity: real, k: nat, i: nat)
    requires k < |Grouped(PerSlide(findings), JoinTest(similarity))|
    requires i < |Grouped(PerSlide(findings), JoinTest(similarity))[k].members|
    ensures var groups := Grouped(PerSlide(findings), JoinTest(similarity));
      var f := groups[k].members[i];
      && AllMembers(groups)[f] == multiset(findings)[f]
      && f.category == groups[k].category && groups[k].members[0].tokens == groups[k].tokens
      && (i > 0 ==> Jaccard(groups[k].tokens, f.tokens) >= similarity)
      && (forall j :: 0 <= j < k && groups[j].category == f.category ==> Jaccard(groups[j].tokens, f.tokens) < similarity)
  {
    var groups := Grouped(PerSlide(findings), JoinTest(similarity));
    GroupedLed(PerSlide(findings), JoinTest(similarity));
    GroupedPartitions(PerSlide(findings), JoinTest(similarity));
    assert Led(groups, k, JoinTest(similarity));
    FilterCounts(findings, (f: Finding) => f.slideNum.Some?, groups[k].members[i]);
  }

  /** No slide-attributed finding is lost. */
  lemma {:induction false} NothingIsLost(findings: seq<Finding>, similarity: real, f: SlideFinding)
    ensures AllMembers(Grouped(PerSlide(findings), JoinTest(similarity)))[f] == multiset(findings)[f]
  {
    GroupedPartitions(PerSlide(findings), JoinTest(similarity));
    FilterCounts(findings, (f: Finding) => f.slideNum.Some?, f);
  }
}
