// The session logger of the test runner: one detailed record per answered
// question, running statistics refreshed after every record, and at the
// end of a session the performance per category, the analysis of the
// failures and the list of recommendations.

module TestLogging {
  import opened Text
  import opened Grouping
  import opened HybridEvaluator
  import QuestionParsing

  // ---------------------------------------------------------------------
  // Records
  // ---------------------------------------------------------------------

  /** The classification the runner reports with an answer, when it has
      one. */
  datatype ClassificationInfo = ClassificationInfo(
    taxonomyPath: string,
    confidence: real,
    matchedKeywords: seq<string>)

  datatype DetailedResult = DetailedResult(
    questionId: int,
    question: string,
    category: string,
    expectedTopics: seq<string>,
    difficulty: QuestionParsing.Difficulty,
    querySent: string,
    classification: ClassificationInfo,
    documentsFound: int,
    response: string,
    responseLength: nat,
    evaluation: EvaluationResult,
    processingTimeMs: real)

  /** The `|| 'Unknown'`, `|| 0` and `|| []` fallbacks of the logged
      classification: the path is never empty, and what the runner did
      report is kept. */
  function Logged(c: Option<ClassificationInfo>): (r: ClassificationInfo)
    ensures r.taxonomyPath != []
    ensures c.Some? && c.value.taxonomyPath != [] ==> r.taxonomyPath == c.value.taxonomyPath
    ensures c.Some? ==> r.confidence == c.value.confidence && r.matchedKeywords == c.value.matchedKeywords
    ensures c.None? ==> r == ClassificationInfo("Unknown", 0.0, [])
  {
    match c
    case None => ClassificationInfo("Unknown", 0.0, [])
    case Some(info) =>
      ClassificationInfo(if info.taxonomyPath == [] then "Unknown" else info.taxonomyPath,
                         info.confidence, info.matchedKeywords)
  }

  /** The record `logQuestionResult` builds from its arguments. */
  function Record(q: QuestionParsing.TestQuestion, querySent: string, classification: Option<ClassificationInfo>,
                  documentsFound: int, response: string, evaluation: EvaluationResult,
                  processingTime: real): DetailedResult
  {
    DetailedResult(q.id, q.question, q.category, q.expectedTopics, q.difficulty, querySent,
                   Logged(classification), documentsFound, response, |response|, evaluation, processingTime)
  }

  // ---------------------------------------------------------------------
  // Running statistics
  // ---------------------------------------------------------------------

  predicate IsPass(r: DetailedResult) { r.evaluation.verdict == Pass }
  predicate IsFail(r: DetailedResult) { r.evaluation.verdict == Fail }
  predicate IsCritical(r: DetailedResult) { r.evaluation.verdict == Critical }
  predicate HasDocuments(r: DetailedResult) { r.documentsFound > 0 }
  predicate ClassifiedCorrectly(r: DetailedResult) { r.evaluation.pattern.checks.correctClassification }

  function ScoreOf(r: DetailedResult): real { r.evaluation.finalScore }

  function TotalScore(rs: seq<DetailedResult>): real {
    if rs == [] then 0.0 else TotalScore(rs[..|rs| - 1]) + ScoreOf(rs[|rs| - 1])
  }

  function TotalTime(rs: seq<DetailedResult>): real {
    if rs == [] then 0.0 else TotalTime(rs[..|rs| - 1]) + rs[|rs| - 1].processingTimeMs
  }

  /** `count / n * 100`, a share as a percentage. */
  function Percent(count: nat, n: nat): (r: real)
    requires 0 < n && count <= n
    ensures 0.0 <= r <= 100.0
    ensures r == 0.0 <==> count == 0
    ensures r == 100.0 <==> count == n
  {
    ShareBounds(count as real, n as real);
    count as real / n as real * 100.0
  }

  lemma ShareBounds(c: real, m: real)
    requires 0.0 < m && 0.0 <= c <= m
    ensures 0.0 <= c / m <= 1.0
    ensures c / m == 0.0 <==> c == 0.0
    ensures c / m == 1.0 <==> c == m
  {
    var share := c / m;
    assert share * m == c;
    assert (1.0 - share) * m == m - c;
  }

  /** The fields of the session summary and of the system health that
      `updateRunningStats` writes. */
  datatype Stats = Stats(
    avgScore: real,
    passCount: nat,
    failCount: nat,
    criticalCount: nat,
    passRate: real,
    costEstimate: real,
    avgResponseTime: real,
    documentRetrievalRate: real,
    classificationAccuracy: real)

  const InitialStats := Stats(0.0, 0, 0, 0, 0.0, 0.0, 0.0, 0.0, 0.0)

  /** About a cent of judge time per question. */
  const CostPerQuestion: real := 0.01

  /** The statistics over a non-empty log. */
  function RunningStats(rs: seq<DetailedResult>): Stats
    requires rs != []
  {
    var n := |rs|;
    var passCount := |Filter(rs, IsPass)|;
    Stats(TotalScore(rs) / n as real, passCount, |Filter(rs, IsFail)|, |Filter(rs, IsCritical)|,
          Percent(passCount, n), n as real * CostPerQuestion, TotalTime(rs) / n as real,
          Percent(|Filter(rs, HasDocuments)|, n), Percent(|Filter(rs, ClassifiedCorrectly)|, n))
  }

  /** The statistics the logger holds after logging `rs`: the initial zeros
      until the first result, since the update returns early on an empty
      log. */
  function SessionStats(rs: seq<DetailedResult>): Stats {
    if rs == [] then InitialStats else RunningStats(rs)
  }

  /** Every verdict is one of the three, so the counts add up. */
  lemma {:induction false} VerdictPartition(rs: seq<DetailedResult>)
    ensures |Filter(rs, IsPass)| + |Filter(rs, IsFail)| + |Filter(rs, IsCritical)| == |rs|
  {
    if rs != [] {
      VerdictPartition(rs[..|rs| - 1]);
    }
  }

  lemma {:induction false} FilterFull<T(!new)>(xs: seq<T>, p: T -> bool)
    ensures |Filter(xs, p)| == |xs| <==> forall i :: 0 <= i < |xs| ==> p(xs[i])
  {
    if xs != [] {
      var init := xs[..|xs| - 1];
      FilterFull(init, p);
      if forall i :: 0 <= i < |xs| ==> p(xs[i]) {
        assert forall i :: 0 <= i < |init| ==> p(init[i]) by {
          forall i | 0 <= i < |init| ensures p(init[i]) {
            assert init[i] == xs[i];
          }
        }
      } else if p(xs[|xs| - 1]) {
        var i :| 0 <= i < |xs| && !p(xs[i]);
        assert init[i] == xs[i];
      }
    }
  }

  predicate ScoresInUnit(rs: seq<DetailedResult>) {
    forall i :: 0 <= i < |rs| ==> 0.0 <= ScoreOf(rs[i]) <= 1.0
  }

  lemma {:induction false} TotalScoreBounds(rs: seq<DetailedResult>)
    requires ScoresInUnit(rs)
    ensures 0.0 <= TotalScore(rs) <= |rs| as real
  {
    if rs != [] {
      var init := rs[..|rs| - 1];
      assert forall i :: 0 <= i < |init| ==> init[i] == rs[i];
      TotalScoreBounds(init);
    }
  }

  /** The mean of scores in [0, 1] is in [0, 1]. */
  lemma MeanScoreBounds(rs: seq<DetailedResult>)
    requires rs != [] && ScoresInUnit(rs)
    ensures 0.0 <= TotalScore(rs) / |rs| as real <= 1.0
  {
    TotalScoreBounds(rs);
    var mean := TotalScore(rs) / |rs| as real;
    assert mean * |rs| as real == TotalScore(rs);
  }

  /** What the running statistics promise: the verdict counts add up to
      the number of results, the rates are percentages, the pass rate is
      100 exactly when every answer passed, the cost grows by a cent per
      answer and, when every final score is in [0, 1], so is the average. */
  lemma SessionStatsShape(rs: seq<DetailedResult>)
    ensures var s := SessionStats(rs);
      && s.passCount == |Filter(rs, IsPass)| && s.failCount == |Filter(rs, IsFail)|
      && s.criticalCount == |Filter(rs, IsCritical)|
      && s.passCount + s.failCount + s.criticalCount == |rs|
      && 0.0 <= s.passRate <= 100.0
      && 0.0 <= s.documentRetrievalRate <= 100.0
      && 0.0 <= s.classificationAccuracy <= 100.0
      && (s.passRate == 100.0 <==> rs != [] && forall i :: 0 <= i < |rs| ==> IsPass(rs[i]))
      && s.costEstimate == |rs| as real * CostPerQuestion
      && (ScoresInUnit(rs) ==> 0.0 <= s.avgScore <= 1.0)
  {
    VerdictPartition(rs);
    if rs != [] {
      FilterFull(rs, IsPass);
      if ScoresInUnit(rs) {
        MeanScoreBounds(rs);
      }
    }
  }

  // ---------------------------------------------------------------------
  // Performance per category
  // ---------------------------------------------------------------------

  datatype CategoryPerformance = CategoryPerformance(
    category: string,
    totalQuestions: nat,
    avgScore: real,
    passRate: real,
    passCount: nat,
    failCount: nat,
    criticalCount: nat,
    commonIssues: seq<string>,
    topPerforming: Option<int>,
    worstPerforming: Option<int>)

  /** `question_id || null`: an id of 0 reads as no question. */
  function IdOrNull(id: int): Option<int> {
    if id == 0 then None else Some(id)
  }

  /** `results.flatMap(r => r.evaluation.issues)`. */
  function AllIssues(rs: seq<DetailedResult>): seq<string> {
    if rs == [] then [] else AllIssues(rs[..|rs| - 1]) + rs[|rs| - 1].evaluation.issues
  }

  function SelfPairs(xs: seq<string>): seq<(string, string)> {
    seq(|xs|, i requires 0 <= i < |xs| => (xs[i], xs[i]))
  }

  /** `Object.entries(issueFreq)`: each issue with its number of
      occurrences, in order of first occurrence. */
  function Frequencies(issues: seq<string>): seq<(string, nat)> {
    var g := Grouped(SelfPairs(issues));
    seq(|g|, i requires 0 <= i < |g| => (g[i].0, |g[i].1|))
  }

  function FrequencyOf(e: (string, nat)): real { e.1 as real }

  /** The three most frequent issues, ties in order of first occurrence. */
  function TopIssues(rs: seq<DetailedResult>): seq<(string, nat)> {
    Take(SortDesc(Frequencies(AllIssues(rs)), FrequencyOf), 3)
  }

  function IssueLabel(e: (string, nat)): string {
    e.0 + " (" + NatToString(e.1) + "x)"
  }

  function CommonIssues(rs: seq<DetailedResult>): seq<string> {
    var top := TopIssues(rs);
    seq(|top|, i requires 0 <= i < |top| => IssueLabel(top[i]))
  }

  /** One entry of `generateCategoryPerformance`, for the results of one
      category in log order. */
  function Performance(category: string, rs: seq<DetailedResult>): CategoryPerformance
    requires rs != []
  {
    var n := |rs|;
    var passCount := |Filter(rs, IsPass)|;
    var sorted := SortDesc(rs, ScoreOf);
    CategoryPerformance(category, n, TotalScore(rs) / n as real, Percent(passCount, n), passCount,
                        |Filter(rs, IsFail)|, |Filter(rs, IsCritical)|, CommonIssues(rs),
                        IdOrNull(sorted[0].questionId), IdOrNull(sorted[n - 1].questionId))
  }

  lemma {:induction false} SelfPairsCount(xs: seq<string>, x: string)
    ensures |ValuesFor(SelfPairs(xs), x)| == multiset(xs)[x]
  {
    if xs != [] {
      var init := xs[..|xs| - 1];
      assert SelfPairs(xs)[..|xs| - 1] == SelfPairs(init);
      assert xs == init + [xs[|xs| - 1]];
      SelfPairsCount(init, x);
    }
  }

  /** Each entry counts its issue exactly, and every issue has an entry. */
  lemma FrequenciesShape(xs: seq<string>)
    ensures forall i :: 0 <= i < |Frequencies(xs)| ==>
              Frequencies(xs)[i].0 in xs && Frequencies(xs)[i].1 == multiset(xs)[Frequencies(xs)[i].0]
    ensures forall x :: x in xs ==> exists i :: 0 <= i < |Frequencies(xs)| && Frequencies(xs)[i].0 == x
  {
    var pairs := SelfPairs(xs);
    var g := Grouped(pairs);
    GroupedShape(pairs);
    assert Firsts(pairs) == xs;
    var f := Frequencies(xs);
    forall i | 0 <= i < |f| ensures f[i].0 in xs && f[i].1 == multiset(xs)[f[i].0] {
      assert Keys(g)[i] == g[i].0;
      SelfPairsCount(xs, g[i].0);
    }
    forall x | x in xs ensures exists i :: 0 <= i < |f| && f[i].0 == x {
      var i :| 0 <= i < |Keys(g)| && Keys(g)[i] == x;
      assert f[i].0 == x;
    }
  }

  /** The common issues are labelled issues of the results with their
      true number of occurrences, at most three, most frequent first. */
  lemma CommonIssuesCounts(rs: seq<DetailedResult>)
    ensures var top := TopIssues(rs); var all := AllIssues(rs);
      && |top| <= 3 && |CommonIssues(rs)| == |top|
      && (forall k :: 0 <= k < |top| ==>
            top[k].0 in all && top[k].1 == multiset(all)[top[k].0] && CommonIssues(rs)[k] == IssueLabel(top[k]))
      && (forall k, j :: 0 <= k < j < |top| ==> top[k].1 >= top[j].1)
  {
    var all := AllIssues(rs);
    var f := Frequencies(all);
    var top := TopIssues(rs);
    FrequenciesShape(all);
    TopOfSorted(f, FrequencyOf, 3);
    TopEntries(all, f, top);
  }

  /** Entries drawn from the frequencies, ordered by frequency, carry true
      counts in decreasing order. */
  lemma TopEntries(all: seq<string>, f: seq<(string, nat)>, top: seq<(string, nat)>)
    requires forall i :: 0 <= i < |f| ==> f[i].0 in all && f[i].1 == multiset(all)[f[i].0]
    requires forall k :: 0 <= k < |top| ==> top[k] in f
    requires forall k, j :: 0 <= k < j < |top| ==> FrequencyOf(top[k]) >= FrequencyOf(top[j])
    ensures forall k :: 0 <= k < |top| ==> top[k].0 in all && top[k].1 == multiset(all)[top[k].0]
    ensures forall k, j :: 0 <= k < j < |top| ==> top[k].1 >= top[j].1
  {
    forall k | 0 <= k < |top| ensures top[k].0 in all && top[k].1 == multiset(all)[top[k].0] {
      var i :| 0 <= i < |f| && f[i] == top[k];
    }
    forall k, j | 0 <= k < j < |top| ensures top[k].1 >= top[j].1 {
      assert FrequencyOf(top[k]) >= FrequencyOf(top[j]);
    }
  }

  /** An issue left out of the common issues occurs no more often than any
      kept, and fewer than three are kept only when there are no more. */
  lemma CommonIssuesMostFrequent(rs: seq<DetailedResult>, x: string)
    requires x in AllIssues(rs)
    requires forall k :: 0 <= k < |TopIssues(rs)| ==> TopIssues(rs)[k].0 != x
    ensures |TopIssues(rs)| == 3
    ensures forall k :: 0 <= k < |TopIssues(rs)| ==> multiset(AllIssues(rs))[x] <= TopIssues(rs)[k].1
  {
    var all := AllIssues(rs);
    var f := Frequencies(all);
    FrequenciesShape(all);
    TopOfSorted(f, FrequencyOf, 3);
    var i :| 0 <= i < |f| && f[i].0 == x;
    assert f[i] in f && f[i] !in TopIssues(rs);
  }

  /** The entry carries the counts and rates of its results. */
  lemma PerformanceCounts(category: string, rs: seq<DetailedResult>)
    requires rs != []
    ensures var p := Performance(category, rs);
      && p.category == category && p.totalQuestions == |rs|
      && p.passCount + p.failCount + p.criticalCount == |rs|
      && 0.0 <= p.passRate <= 100.0
      && (ScoresInUnit(rs) ==> 0.0 <= p.avgScore <= 1.0)
  {
    VerdictPartition(rs);
    if ScoresInUnit(rs) {
      MeanScoreBounds(rs);
    }
  }

  /** The top and the worst question of the entry are results of the
      category with the highest and the lowest final score; on a tie the
      stable sort makes the top question the first with the highest score
      and the worst the last with the lowest. */
  lemma PerformanceExtremes(category: string, rs: seq<DetailedResult>)
    requires rs != []
    ensures var p := Performance(category, rs);
      && (exists r :: r in rs && p.topPerforming == IdOrNull(r.questionId)
            && forall y :: y in rs ==> ScoreOf(y) <= ScoreOf(r))
      && (exists r :: r in rs && p.worstPerforming == IdOrNull(r.questionId)
            && forall y :: y in rs ==> ScoreOf(r) <= ScoreOf(y))
      && (exists i :: FirstMaxAt(rs, ScoreOf, i) && p.topPerforming == IdOrNull(rs[i].questionId))
      && (exists i :: LastMinAt(rs, ScoreOf, i) && p.worstPerforming == IdOrNull(rs[i].questionId))
  {
    SortDescEnds(rs, ScoreOf);
    SortDescFirst(rs, ScoreOf);
    SortDescLast(rs, ScoreOf);
  }

  function CategoryPairs(rs: seq<DetailedResult>): seq<(string, DetailedResult)> {
    seq(|rs|, i requires 0 <= i < |rs| => (rs[i].category, rs[i]))
  }

  function Categories(rs: seq<DetailedResult>): seq<string> {
    seq(|rs|, i requires 0 <= i < |rs| => rs[i].category)
  }

  /** The results of category c, in log order. */
  function InCategory(rs: seq<DetailedResult>, c: string): seq<DetailedResult> {
    if rs == [] then []
    else InCategory(rs[..|rs| - 1], c) + (if rs[|rs| - 1].category == c then [rs[|rs| - 1]] else [])
  }

  function Performances(g: Groups<string, DetailedResult>): seq<CategoryPerformance>
    requires forall i :: 0 <= i < |g| ==> g[i].1 != []
  {
    seq(|g|, i requires 0 <= i < |g| => Performance(g[i].0, g[i].1))
  }

  function AvgScoreOf(c: CategoryPerformance): real { c.avgScore }

  /** `generateCategoryPerformance`: the entries of the grouping map, best
      average first. */
  function CategoryPerformanceOf(rs: seq<DetailedResult>): seq<CategoryPerformance> {
    GroupedNonEmpty(CategoryPairs(rs));
    SortDesc(Performances(Grouped(CategoryPairs(rs))), AvgScoreOf)
  }

  lemma {:induction false} CategoryValues(rs: seq<DetailedResult>, c: string)
    ensures ValuesFor(CategoryPairs(rs), c) == InCategory(rs, c)
  {
    if rs != [] {
      assert CategoryPairs(rs)[..|rs| - 1] == CategoryPairs(rs[..|rs| - 1]);
      CategoryValues(rs[..|rs| - 1], c);
    }
  }

  /** The grouping map holds one entry per category, in order of first
      appearance, with the results of that category in log order. */
  lemma CategoryGroups(rs: seq<DetailedResult>)
    ensures var g := Grouped(CategoryPairs(rs));
      && Keys(g) == Dedup(Categories(rs))
      && forall i :: 0 <= i < |g| ==> g[i].1 == InCategory(rs, g[i].0)
  {
    var g := Grouped(CategoryPairs(rs));
    GroupedShape(CategoryPairs(rs));
    assert Firsts(CategoryPairs(rs)) == Categories(rs);
    forall i | 0 <= i < |g| ensures g[i].1 == InCategory(rs, g[i].0) {
      CategoryValues(rs, g[i].0);
    }
  }

  function CategoryOf(c: CategoryPerformance): string { c.category }

  /** Each category of the results has exactly one entry, and the best
      average comes first. */
  lemma CategoryPerformanceCovers(rs: seq<DetailedResult>)
    ensures var out := CategoryPerformanceOf(rs);
      && SortedDesc(out, AvgScoreOf)
      && |out| == |Dedup(Categories(rs))|
      && (forall c :: c in Categories(rs) ==> exists k :: 0 <= k < |out| && out[k].category == c)
      && (forall k, j :: 0 <= k < j < |out| ==> out[k].category != out[j].category)
  {
    var g := Grouped(CategoryPairs(rs));
    GroupedNonEmpty(CategoryPairs(rs));
    CategoryGroups(rs);
    var perfs := Performances(g);
    assert forall i :: 0 <= i < |g| ==> CategoryOf(perfs[i]) == g[i].0;
    PermutedEntries(g, perfs, CategoryPerformanceOf(rs), CategoryOf);
  }

  lemma CategoryEntryAt(rs: seq<DetailedResult>, k: nat)
    requires k < |CategoryPerformanceOf(rs)|
    ensures var e := CategoryPerformanceOf(rs)[k];
      e.category in Categories(rs) && InCategory(rs, e.category) != []
      && e == Performance(e.category, InCategory(rs, e.category))
  {
    var g := Grouped(CategoryPairs(rs));
    GroupedNonEmpty(CategoryPairs(rs));
    CategoryGroups(rs);
    var perfs := Performances(g);
    var out := CategoryPerformanceOf(rs);
    assert forall i :: 0 <= i < |g| ==> CategoryOf(perfs[i]) == g[i].0;
    PermutedEntries(g, perfs, out, CategoryOf);
    var i :| 0 <= i < |g| && out[k] == perfs[i];
    var c := g[i].0;
    assert Keys(g)[i] == c;
    assert out[k].category == c;
    assert g[i].1 == InCategory(rs, c);
  }

  /** Every entry is the performance of exactly the results of its
      category. */
  lemma CategoryPerformanceEntries(rs: seq<DetailedResult>)
    ensures var out := CategoryPerformanceOf(rs);
      forall k :: 0 <= k < |out| ==>
        out[k].category in Categories(rs) && InCategory(rs, out[k].category) != []
        && out[k] == Performance(out[k].category, InCategory(rs, out[k].category))
  {
    var out := CategoryPerformanceOf(rs);
    forall k | 0 <= k < |out|
      ensures out[k].category in Categories(rs) && InCategory(rs, out[k].category) != []
              && out[k] == Performance(out[k].category, InCategory(rs, out[k].category))
    {
      CategoryEntryAt(rs, k);
    }
  }

  /** The number of questions over a list of entries. */
  function TotalOf(cs: seq<CategoryPerformance>): nat {
    if cs == [] then 0 else cs[0].totalQuestions + TotalOf(cs[1..])
  }

  lemma {:induction false} TotalInsert(x: CategoryPerformance, xs: seq<CategoryPerformance>)
    ensures TotalOf(InsertDesc(x, xs, AvgScoreOf)) == x.totalQuestions + TotalOf(xs)
  {
    if xs != [] && AvgScoreOf(xs[0]) > AvgScoreOf(x) {
      TotalInsert(x, xs[1..]);
      assert InsertDesc(x, xs, AvgScoreOf)[1..] == InsertDesc(x, xs[1..], AvgScoreOf);
    } else if xs != [] {
      assert InsertDesc(x, xs, AvgScoreOf)[1..] == xs;
    }
  }

  lemma {:induction false} TotalSort(xs: seq<CategoryPerformance>)
    ensures TotalOf(SortDesc(xs, AvgScoreOf)) == TotalOf(xs)
  {
    if xs != [] {
      TotalSort(xs[1..]);
      TotalInsert(xs[0], SortDesc(xs[1..], AvgScoreOf));
    }
  }

  lemma {:induction false} TotalMatchesSize(cs: seq<CategoryPerformance>, g: Groups<string, DetailedResult>)
    requires |cs| == |g| && forall i :: 0 <= i < |g| ==> cs[i].totalQuestions == |g[i].1|
    ensures TotalOf(cs) == Size(g)
  {
    if g != [] {
      TotalMatchesSize(cs[1..], g[1..]);
    }
  }

  /** Every result is counted in exactly one category. */
  lemma CategoryTotals(rs: seq<DetailedResult>)
    ensures TotalOf(CategoryPerformanceOf(rs)) == |rs|
  {
    var pairs := CategoryPairs(rs);
    GroupedNonEmpty(pairs);
    GroupedSize(pairs);
    var g := Grouped(pairs);
    assert forall i :: 0 <= i < |g| ==> Performances(g)[i].totalQuestions == |g[i].1|;
    TotalMatchesSize(Performances(g), g);
    TotalSort(Performances(Grouped(pairs)));
  }

  // ---------------------------------------------------------------------
  // Failure analysis
  // ---------------------------------------------------------------------

  datatype Priority = High | Medium | Low

  datatype FailureAnalysis = FailureAnalysis(
    failureType: string,
    count: nat,
    percentage: real,
    affectedQuestions: seq<int>,
    recommendedAction: string,
    priority: Priority)

  const DefaultAction := "Investigate specific failure pattern"

  /** `getRecommendedAction`: an action for each known failure type and a
      general one for any other. */
  function GetRecommendedAction(failureType: string): string {
    if failureType == "No documents found" then "Review document indexing and taxonomy mapping"
    else if failureType == "Incorrect classification" then "Improve query classification algorithm"
    else if failureType == "Generic response" then "Enhance response generation with more specific content"
    else if failureType == "Low classification confidence" then "Review and expand taxonomy keywords"
    else if failureType == "No candidates mentioned" then "Ensure response includes relevant candidate information"
    else if failureType == "Lacks substantive content" then "Improve document chunking and content extraction"
    else if failureType == "AI evaluation error" then "Check API connectivity and error handling"
    else DefaultAction
  }

  /** `getPriority`. */
  function GetPriority(failureType: string, percentage: real): Priority {
    if percentage > 30.0 || Contains(failureType, "No documents found") then High
    else if percentage > 15.0 || Contains(failureType, "classification") then Medium
    else Low
  }

  function PriorityRank(p: Priority): nat {
    match p
    case High => 2
    case Medium => 1
    case Low => 0
  }

  function IssuePairs(issues: seq<string>, id: int): seq<(string, int)> {
    seq(|issues|, i requires 0 <= i < |issues| => (issues[i], id))
  }

  /** The pairs the failure loop pushes, in order: each issue of each answer
      that did not pass, with the answer's question. */
  function FailurePairs(rs: seq<DetailedResult>): seq<(string, int)> {
    if rs == [] then []
    else
      var last := rs[|rs| - 1];
      FailurePairs(rs[..|rs| - 1]) + (if IsPass(last) then [] else IssuePairs(last.evaluation.issues, last.questionId))
  }

  /** `fail_count + critical_count`. */
  function FailedCount(rs: seq<DetailedResult>): nat {
    |Filter(rs, IsFail)| + |Filter(rs, IsCritical)|
  }

  lemma {:induction false} FailuresNeedFailedAnswers(rs: seq<DetailedResult>)
    ensures FailurePairs(rs) != [] ==> FailedCount(rs) > 0
  {
    if rs != [] {
      FailuresNeedFailedAnswers(rs[..|rs| - 1]);
    }
  }

  function FailureEntry(e: (string, seq<int>), totalFailed: nat): FailureAnalysis
    requires totalFailed > 0
  {
    var count := |e.1|;
    var percentage := count as real / totalFailed as real * 100.0;
    FailureAnalysis(e.0, count, percentage, e.1, GetRecommendedAction(e.0), GetPriority(e.0, percentage))
  }

  function FailureEntries(g: Groups<string, int>, totalFailed: nat): seq<FailureAnalysis>
    requires g != [] ==> totalFailed > 0
  {
    seq(|g|, i requires 0 <= i < |g| => FailureEntry(g[i], totalFailed))
  }

  function CountOf(f: FailureAnalysis): real { f.count as real }

  function FailureTypeOf(f: FailureAnalysis): string { f.failureType }

  /** `generateFailureAnalysis`: the entries of the failure map, most
      frequent first, with the percentages taken over the answers that did
      not pass. */
  function FailureAnalysisOf(rs: seq<DetailedResult>): seq<FailureAnalysis> {
    FailuresNeedFailedAnswers(rs);
    SortDesc(FailureEntries(Grouped(FailurePairs(rs)), FailedCount(rs)), CountOf)
  }

  /** The questions that did not pass and reported issue t, in log order:
      the reference for the affected questions of an entry. */
  function Affected(rs: seq<DetailedResult>, t: string): seq<int> {
    if rs == [] then []
    else
      var last := rs[|rs| - 1];
      Affected(rs[..|rs| - 1], t) + (if !IsPass(last) && t in last.evaluation.issues then [last.questionId] else [])
  }

  /** Each answer reports each issue once, as the evaluator guarantees. */
  predicate IssuesDistinct(rs: seq<DetailedResult>) {
    forall i :: 0 <= i < |rs| ==> NoDuplicates(rs[i].evaluation.issues)
  }

  lemma {:induction false} IssuePairsValues(issues: seq<string>, id: int, t: string)
    requires NoDuplicates(issues)
    ensures ValuesFor(IssuePairs(issues, id), t) == if t in issues then [id] else []
  {
    if issues != [] {
      var init := issues[..|issues| - 1];
      assert IssuePairs(issues, id)[..|issues| - 1] == IssuePairs(init, id);
      assert NoDuplicates(init);
      IssuePairsValues(init, id, t);
      assert issues == init + [issues[|issues| - 1]];
      assert issues[|issues| - 1] !in init;
    }
  }

  lemma {:induction false} FailureValues(rs: seq<DetailedResult>, t: string)
    requires IssuesDistinct(rs)
    ensures ValuesFor(FailurePairs(rs), t) == Affected(rs, t)
  {
    if rs != [] {
      var init := rs[..|rs| - 1];
      var last := rs[|rs| - 1];
      assert IssuesDistinct(init) by {
        forall i | 0 <= i < |init| ensures NoDuplicates(init[i].evaluation.issues) {
          assert init[i] == rs[i];
        }
      }
      FailureValues(init, t);
      var extra := if IsPass(last) then [] else IssuePairs(last.evaluation.issues, last.questionId);
      ValuesForAppend(FailurePairs(init), extra, t);
      if !IsPass(last) {
        IssuePairsValues(last.evaluation.issues, last.questionId, t);
      }
    }
  }

  /** Each answer that did not pass is counted once per entry. */
  lemma {:induction false} AffectedBound(rs: seq<DetailedResult>, t: string)
    ensures |Affected(rs, t)| <= FailedCount(rs)
  {
    if rs != [] {
      AffectedBound(rs[..|rs| - 1], t);
    }
  }

  /** The answer is to question id, did not pass and reported t. */
  predicate Hit(r: DetailedResult, t: string, id: int) {
    r.questionId == id && !IsPass(r) && t in r.evaluation.issues
  }

  /** A question is affected by t exactly when one of its answers did not
      pass and reported t. */
  lemma {:induction false} AffectedIff(rs: seq<DetailedResult>, t: string, id: int)
    ensures id in Affected(rs, t) <==> exists i :: 0 <= i < |rs| && Hit(rs[i], t, id)
  {
    if rs != [] {
      var init := rs[..|rs| - 1];
      var last := rs[|rs| - 1];
      AffectedIff(init, t, id);
      assert id in Affected(rs, t) <==> id in Affected(init, t) || Hit(last, t, id);
      if id in Affected(init, t) {
        var i :| 0 <= i < |init| && Hit(init[i], t, id);
        assert rs[i] == init[i];
      } else if exists i :: 0 <= i < |rs| && Hit(rs[i], t, id) {
        var i :| 0 <= i < |rs| && Hit(rs[i], t, id);
        if i < |init| {
          assert init[i] == rs[i];
        }
      }
    }
  }

  /** The failure map holds one entry per reported issue of an answer that
      did not pass, with the questions affected by it. */
  lemma FailureGroups(rs: seq<DetailedResult>)
    requires IssuesDistinct(rs)
    ensures var g := Grouped(FailurePairs(rs));
      && NoDuplicates(Keys(g))
      && (forall i :: 0 <= i < |g| ==> g[i].1 == Affected(rs, g[i].0) && g[i].1 != [])
      && (forall t :: Affected(rs, t) != [] ==> t in Keys(g))
  {
    var pairs := FailurePairs(rs);
    var g := Grouped(pairs);
    GroupedShape(pairs);
    GroupedNonEmpty(pairs);
    forall i | 0 <= i < |g| ensures g[i].1 == Affected(rs, g[i].0) {
      FailureValues(rs, g[i].0);
    }
    forall t | Affected(rs, t) != [] ensures t in Keys(g) {
      FailureValues(rs, t);
      if t !in Firsts(pairs) {
        ValuesForAbsent(pairs, t);
      }
    }
  }

  lemma FailureEntryAt(rs: seq<DetailedResult>, k: nat)
    requires IssuesDistinct(rs) && k < |FailureAnalysisOf(rs)|
    ensures var f := FailureAnalysisOf(rs)[k];
      && f.affectedQuestions == Affected(rs, f.failureType) && f.affectedQuestions != []
      && f.count == |f.affectedQuestions|
      && FailedCount(rs) > 0 && f.percentage == f.count as real / FailedCount(rs) as real * 100.0
      && 0.0 < f.percentage <= 100.0
      && f.recommendedAction == GetRecommendedAction(f.failureType)
      && f.priority == GetPriority(f.failureType, f.percentage)
  {
    var pairs := FailurePairs(rs);
    var g := Grouped(pairs);
    FailuresNeedFailedAnswers(rs);
    FailureGroups(rs);
    var total := FailedCount(rs);
    var es := FailureEntries(g, total);
    var out := FailureAnalysisOf(rs);
    assert forall i :: 0 <= i < |g| ==> FailureTypeOf(es[i]) == g[i].0;
    PermutedEntries(g, es, out, FailureTypeOf);
    var i :| 0 <= i < |g| && out[k] == es[i];
    AffectedBound(rs, g[i].0);
    assert out[k] == FailureEntry(g[i], total);
    FailureEntryShape(g[i], total);
  }

  /** An entry for a non-empty list of questions, out of at least as many
      failed answers. */
  lemma FailureEntryShape(e: (string, seq<int>), totalFailed: nat)
    requires 0 < |e.1| <= totalFailed
    ensures var f := FailureEntry(e, totalFailed);
      && f.failureType == e.0 && f.affectedQuestions == e.1 && f.count == |e.1|
      && f.percentage == f.count as real / totalFailed as real * 100.0
      && 0.0 < f.percentage <= 100.0
      && f.recommendedAction == GetRecommendedAction(e.0)
      && f.priority == GetPriority(e.0, f.percentage)
  {
    ShareBounds(|e.1| as real, totalFailed as real);
  }

  /** Every entry counts the questions that did not pass and reported its
      failure type; its percentage is that count as a share of all answers
      that did not pass. */
  lemma FailureAnalysisEntries(rs: seq<DetailedResult>)
    requires IssuesDistinct(rs)
    ensures var out := FailureAnalysisOf(rs);
      forall k :: 0 <= k < |out| ==>
        out[k].affectedQuestions == Affected(rs, out[k].failureType) && out[k].affectedQuestions != []
        && out[k].count == |out[k].affectedQuestions|
        && FailedCount(rs) > 0 && out[k].percentage == out[k].count as real / FailedCount(rs) as real * 100.0
        && 0.0 < out[k].percentage <= 100.0
        && out[k].recommendedAction == GetRecommendedAction(out[k].failureType)
        && out[k].priority == GetPriority(out[k].failureType, out[k].percentage)
  {
    var out := FailureAnalysisOf(rs);
    forall k | 0 <= k < |out|
      ensures out[k].affectedQuestions == Affected(rs, out[k].failureType) && out[k].affectedQuestions != []
              && out[k].count == |out[k].affectedQuestions|
              && FailedCount(rs) > 0 && out[k].percentage == out[k].count as real / FailedCount(rs) as real * 100.0
              && 0.0 < out[k].percentage <= 100.0
              && out[k].recommendedAction == GetRecommendedAction(out[k].failureType)
              && out[k].priority == GetPriority(out[k].failureType, out[k].percentage)
    {
      FailureEntryAt(rs, k);
    }
  }

  /** Each failure type that affected a question has exactly one entry, and
      the most frequent comes first. */
  lemma FailureAnalysisCovers(rs: seq<DetailedResult>)
    requires IssuesDistinct(rs)
    ensures var out := FailureAnalysisOf(rs);
      && SortedDesc(out, CountOf)
      && (forall t :: Affected(rs, t) != [] ==> exists k :: 0 <= k < |out| && out[k].failureType == t)
      && (forall k, j :: 0 <= k < j < |out| ==> out[k].failureType != out[j].failureType)
  {
    var g := Grouped(FailurePairs(rs));
    FailuresNeedFailedAnswers(rs);
    FailureGroups(rs);
    var es := FailureEntries(g, FailedCount(rs));
    assert forall i :: 0 <= i < |g| ==> FailureTypeOf(es[i]) == g[i].0;
    PermutedEntries(g, es, FailureAnalysisOf(rs), FailureTypeOf);
  }

  /** The failure types with an action of their own. */
  const KnownFailureTypes: seq<string> := ["No documents found", "Incorrect classification", "Generic response",
    "Low classification confidence", "No candidates mentioned", "Lacks substantive content", "AI evaluation error"]

  /** A known failure type gets its own action ... */
  lemma KnownTypeAction(t: string)
    ensures t in KnownFailureTypes ==> GetRecommendedAction(t) != DefaultAction
  {
  }

  /** ... and any other the general one. */
  lemma UnknownTypeAction(t: string)
    ensures t !in KnownFailureTypes ==> GetRecommendedAction(t) == DefaultAction
  {
  }

  /** Every issue of the evaluator's checks is a known failure type except
      the inadequate length and the missing proposals. */
  lemma EvaluatorIssuesKnown(h: HeuristicChecks, p: PatternChecks, x: string)
    requires x in HeuristicIssues(h) + PatternIssues(p)
    ensures x in KnownFailureTypes <==> x != "Response length inadequate" && x != "No specific proposals"
  {
  }

  /** A larger share never lowers the priority. */
  lemma PriorityMonotone(t: string, p1: real, p2: real)
    requires p1 <= p2
    ensures PriorityRank(GetPriority(t, p1)) <= PriorityRank(GetPriority(t, p2))
  {
  }

  /** Missing documents are of high priority whatever their share ... */
  lemma NoDocumentsHigh(x: string, percentage: real)
    requires x == "No documents found"
    ensures GetPriority(x, percentage) == High
  {
    assert StartsWith(x, "No documents found");
  }

  /** ... and the two classification issues at least of medium priority. */
  lemma IncorrectClassificationNotLow(x: string, percentage: real)
    requires x == "Incorrect classification"
    ensures GetPriority(x, percentage) != Low
  {
    ContainsMiddle("Incorrect ", "classification", "");
    assert x == "Incorrect " + "classification" + "";
  }

  lemma LowConfidenceNotLow(x: string, percentage: real)
    requires x == "Low classification confidence"
    ensures GetPriority(x, percentage) != Low
  {
    ContainsMiddle("Low ", "classification", " confidence");
    assert x == "Low " + "classification" + " confidence";
  }

  // ---------------------------------------------------------------------
  // Recommendations
  // ---------------------------------------------------------------------

  /** The level each recommendation opens with. */
  const CriticalLevel: string := "CRITICAL: "
  const HighLevel: string := "HIGH: "
  const MediumLevel: string := "MEDIUM: "
  const PositiveLevel: string := "POSITIVE: "

  const CriticalRecommendation: string :=
    CriticalLevel + "Overall pass rate below 70% - comprehensive system review needed"
  const RetrievalRecommendation: string :=
    HighLevel + "Low document retrieval rate - check Qdrant indexing and query processing"
  const AccuracyRecommendation: string :=
    HighLevel + "Classification accuracy below 75% - review taxonomy and keyword mapping"
  const PositiveRecommendation: string :=
    PositiveLevel + "Good overall performance - focus on edge cases and optimization"

  predicate IsPoor(c: CategoryPerformance) { c.passRate < 60.0 }

  predicate IsHighPriority(f: FailureAnalysis) { f.priority == High }

  function PoorCategoriesRecommendation(names: seq<string>): string {
    MediumLevel + "Poor performance in categories: " + Join(names, ", ")
  }

  function FailureRecommendation(f: FailureAnalysis): string {
    HighLevel + f.recommendedAction + " (affects " + NatToString(f.count) + " questions)"
  }

  /** The recommendations drawn from the session figures. */
  function OverallPart(s: Stats): seq<string> {
    (if s.passRate < 70.0 then [CriticalRecommendation] else [])
    + (if s.documentRetrievalRate < 60.0 then [RetrievalRecommendation] else [])
    + (if s.classificationAccuracy < 75.0 then [AccuracyRecommendation] else [])
  }

  /** The names of the categories passing less than 60% of the time, in
      the order of the performance list. */
  function PoorCategories(cs: seq<CategoryPerformance>): seq<string> {
    if cs == [] then []
    else
      var last := cs[|cs| - 1];
      PoorCategories(cs[..|cs| - 1]) + (if IsPoor(last) then [last.category] else [])
  }

  function CategoryPart(cs: seq<CategoryPerformance>): seq<string> {
    var names := PoorCategories(cs);
    if names != [] then [PoorCategoriesRecommendation(names)] else []
  }

  /** One recommendation per high-priority failure, in the order of the
      analysis. */
  function FailurePart(fs: seq<FailureAnalysis>): seq<string> {
    if fs == [] then []
    else
      var last := fs[|fs| - 1];
      FailurePart(fs[..|fs| - 1]) + (if IsHighPriority(last) then [FailureRecommendation(last)] else [])
  }

  function PositivePart(threshold: real, s: Stats): seq<string> {
    if s.avgScore > threshold then [PositiveRecommendation] else []
  }

  /** `generateRecommendations`, with the average score compared against
      `threshold` for the closing positive note. */
  function RecommendationsWith(threshold: real, s: Stats, cs: seq<CategoryPerformance>,
                               fs: seq<FailureAnalysis>): seq<string> {
    OverallPart(s) + CategoryPart(cs) + FailurePart(fs) + PositivePart(threshold, s)
  }

  /** As written: the average score, a number in [0, 1], is compared with
      80 as if it were a percentage. */
  function RecommendationsAsWritten(s: Stats, cs: seq<CategoryPerformance>, fs: seq<FailureAnalysis>): seq<string> {
    RecommendationsWith(80.0, s, cs, fs)
  }

  /** As intended: a positive note once the average score is above 0.8. */
  function SessionRecommendations(s: Stats, cs: seq<CategoryPerformance>, fs: seq<FailureAnalysis>): seq<string> {
    RecommendationsWith(0.8, s, cs, fs)
  }

  predicate Opens(x: string, c: char) { |x| > 0 && x[0] == c }

  predicate Closes(x: string, c: char) { |x| > 0 && x[|x| - 1] == c }

  /** The first letter of every recommendation names its level, the two
      HIGH notes on the session figures differ, and only the failure
      recommendations end with a parenthesis. */
  lemma FixedHeads()
    ensures Opens(CriticalRecommendation, 'C')
    ensures Opens(RetrievalRecommendation, 'H') && Closes(RetrievalRecommendation, 'g')
    ensures Opens(AccuracyRecommendation, 'H') && Closes(AccuracyRecommendation, 'g')
    ensures RetrievalRecommendation != AccuracyRecommendation
    ensures Opens(PositiveRecommendation, 'P')
  {
  }

  /** The figures-based notes. */
  predicate FigureNote(y: string) { Opens(y, 'C') || (Opens(y, 'H') && Closes(y, 'g')) }

  lemma OverallPartHeads(s: Stats)
    ensures forall y :: y in OverallPart(s) ==> FigureNote(y)
  {
    FixedHeads();
  }

  lemma CategoryPartHeads(cs: seq<CategoryPerformance>)
    ensures forall y :: y in CategoryPart(cs) ==> Opens(y, 'M')
  {
  }

  lemma FailureRecommendationHead(f: FailureAnalysis)
    ensures Opens(FailureRecommendation(f), 'H') && Closes(FailureRecommendation(f), ')')
  {
  }

  lemma {:induction false} FailurePartHeads(fs: seq<FailureAnalysis>)
    ensures forall y :: y in FailurePart(fs) ==> Opens(y, 'H') && Closes(y, ')')
  {
    if fs != [] {
      FailurePartHeads(fs[..|fs| - 1]);
      FailureRecommendationHead(fs[|fs| - 1]);
    }
  }

  lemma PositivePartHeads(threshold: real, s: Stats)
    ensures forall y :: y in PositivePart(threshold, s) ==> Opens(y, 'P')
  {
    FixedHeads();
  }

  /** A string with a mark that no member of `b` (of `a`) has is in `a + b`
      exactly when it is in `a` (in `b`). */
  lemma Separate(x: string, a: seq<string>, b: seq<string>, mark: string -> bool)
    requires mark(x)
    ensures (forall y :: y in b ==> !mark(y)) ==> (x in a + b <==> x in a)
    ensures (forall y :: y in a ==> !mark(y)) ==> (x in a + b <==> x in b)
  {
  }

  /** A note on the session figures is in the list exactly when it is
      among the figures-based notes. */
  lemma OverallSeparate(x: string, threshold: real, s: Stats, cs: seq<CategoryPerformance>, fs: seq<FailureAnalysis>)
    requires FigureNote(x)
    ensures x in RecommendationsWith(threshold, s, cs, fs) <==> x in OverallPart(s)
  {
    var o, c, f, p := OverallPart(s), CategoryPart(cs), FailurePart(fs), PositivePart(threshold, s);
    FailurePartHeads(fs);
    CategoryPartHeads(cs);
    PositivePartHeads(threshold, s);
    Separate(x, o + c + f, p, FigureNote);
    Separate(x, o + c, f, FigureNote);
    Separate(x, o, c, FigureNote);
  }

  lemma PositiveSeparate(threshold: real, s: Stats, cs: seq<CategoryPerformance>, fs: seq<FailureAnalysis>)
    ensures PositiveRecommendation in RecommendationsWith(threshold, s, cs, fs) <==> s.avgScore > threshold
  {
    var o, c, f, p := OverallPart(s), CategoryPart(cs), FailurePart(fs), PositivePart(threshold, s);
    FixedHeads();
    OverallPartHeads(s);
    FailurePartHeads(fs);
    CategoryPartHeads(cs);
    Separate(PositiveRecommendation, o + c + f, p, (y: string) => Opens(y, 'P'));
  }

  lemma OverallLevels(s: Stats)
    ensures CriticalRecommendation in OverallPart(s) <==> s.passRate < 70.0
    ensures RetrievalRecommendation in OverallPart(s) <==> s.documentRetrievalRate < 60.0
    ensures AccuracyRecommendation in OverallPart(s) <==> s.classificationAccuracy < 75.0
  {
    FixedHeads();
  }

  /** Each recommendation on the session figures is given exactly when its
      figure is past its threshold, and the positive note exactly when the
      average score is above `threshold`. */
  lemma RecommendationsWithLevels(threshold: real, s: Stats, cs: seq<CategoryPerformance>, fs: seq<FailureAnalysis>)
    ensures var r := RecommendationsWith(threshold, s, cs, fs);
      && (CriticalRecommendation in r <==> s.passRate < 70.0)
      && (RetrievalRecommendation in r <==> s.documentRetrievalRate < 60.0)
      && (AccuracyRecommendation in r <==> s.classificationAccuracy < 75.0)
      && (PositiveRecommendation in r <==> s.avgScore > threshold)
  {
    FixedHeads();
    OverallLevels(s);
    OverallSeparate(CriticalRecommendation, threshold, s, cs, fs);
    OverallSeparate(RetrievalRecommendation, threshold, s, cs, fs);
    OverallSeparate(AccuracyRecommendation, threshold, s, cs, fs);
    PositiveSeparate(threshold, s, cs, fs);
  }

  /** The names listed as poor are those of the categories passing less
      than 60% of the time, and the note on them is given exactly when
      there is one. */
  lemma {:induction false} PoorCategoriesNamed(cs: seq<CategoryPerformance>)
    ensures forall name :: name in PoorCategories(cs) <==> exists c :: c in cs && IsPoor(c) && c.category == name
    ensures PoorCategories(cs) != [] <==> exists c :: c in cs && IsPoor(c)
  {
    if cs != [] {
      var init, last := cs[..|cs| - 1], cs[|cs| - 1];
      PoorCategoriesNamed(init);
      assert cs == init + [last];
      forall name ensures name in PoorCategories(cs) <==> exists c :: c in cs && IsPoor(c) && c.category == name {
        if c :| c in cs && IsPoor(c) && c.category == name {
          if c != last {
            assert c in init;
          }
        }
        if name in PoorCategories(init) {
          var c :| c in init && IsPoor(c) && c.category == name;
          assert c in cs;
        }
      }
      if c :| c in cs && IsPoor(c) {
        if c != last {
          assert c in init;
        }
      }
      if c :| c in init && IsPoor(c) {
        assert c in cs;
      }
    }
  }

  lemma {:induction false} FailurePartCount(fs: seq<FailureAnalysis>)
    ensures |FailurePart(fs)| == |Filter(fs, IsHighPriority)|
    ensures forall f :: f in fs && IsHighPriority(f) ==> FailureRecommendation(f) in FailurePart(fs)
  {
    if fs != [] {
      var init, last := fs[..|fs| - 1], fs[|fs| - 1];
      FailurePartCount(init);
      assert fs == init + [last];
    }
  }

  /** Every high-priority failure gets its own recommendation, and there is
      one recommendation per high-priority failure, at most one on the
      categories and one per figure past its threshold. */
  lemma RecommendationsWithCount(threshold: real, s: Stats, cs: seq<CategoryPerformance>, fs: seq<FailureAnalysis>)
    ensures var r := RecommendationsWith(threshold, s, cs, fs);
      && (forall f :: f in fs && IsHighPriority(f) ==> FailureRecommendation(f) in r)
      && |r| == Flag(s.passRate < 70.0) + Flag(s.documentRetrievalRate < 60.0) + Flag(s.classificationAccuracy < 75.0)
                + Flag(exists c :: c in cs && IsPoor(c)) + |Filter(fs, IsHighPriority)| + Flag(s.avgScore > threshold)
  {
    FailurePartCount(fs);
    PoorCategoriesNamed(cs);
  }

  /** As written, a session whose final scores are in [0, 1] never gets the
      positive note. */
  lemma AsWrittenNeverPositive(rs: seq<DetailedResult>, cs: seq<CategoryPerformance>, fs: seq<FailureAnalysis>)
    requires ScoresInUnit(rs)
    ensures PositiveRecommendation !in RecommendationsAsWritten(SessionStats(rs), cs, fs)
  {
    SessionStatsShape(rs);
    RecommendationsWithLevels(80.0, SessionStats(rs), cs, fs);
  }

  /** A session where every answer passed with a perfect score: as
      written, no recommendation at all; as intended, the positive note. */
  lemma PerfectSessionExample()
    ensures var s := Stats(1.0, 1, 0, 0, 100.0, 0.01, 0.0, 100.0, 100.0);
      && RecommendationsAsWritten(s, [], []) == []
      && SessionRecommendations(s, [], []) == [PositiveRecommendation]
  {
    var s := Stats(1.0, 1, 0, 0, 100.0, 0.01, 0.0, 100.0, 100.0);
    assert PoorCategories([]) == [];
    assert FailurePart([]) == [];
  }

  /** As intended, the positive note comes exactly with an average score
      above 0.8. */
  lemma PositiveIff(s: Stats, cs: seq<CategoryPerformance>, fs: seq<FailureAnalysis>)
    ensures PositiveRecommendation in SessionRecommendations(s, cs, fs) <==> s.avgScore > 0.8
  {
    RecommendationsWithLevels(0.8, s, cs, fs);
  }

  // ---------------------------------------------------------------------
  // The logger
  // ---------------------------------------------------------------------

  lemma FailurePairsStep(rs: seq<DetailedResult>, i: nat)
    requires i < |rs|
    ensures FailurePairs(rs[..i + 1]) == FailurePairs(rs[..i])
              + (if IsPass(rs[i]) then [] else IssuePairs(rs[i].evaluation.issues, rs[i].questionId))
  {
    assert rs[..i + 1][..i] == rs[..i];
  }

  /** The session summary, without the session id and the time stamp. */
  datatype TestSession = TestSession(
    totalQuestions: int,
    completed: int,
    avgScore: real,
    passRate: real,
    passCount: nat,
    failCount: nat,
    criticalCount: nat,
    durationMinutes: real,
    costEstimate: real)

  datatype SystemHealth = SystemHealth(
    apiAvailability: real,
    avgResponseTime: real,
    classificationAccuracy: real,
    documentRetrievalRate: real)

  /** The results document a session fills in. */
  datatype TestResults = TestResults(
    sessionSummary: TestSession,
    detailedResults: seq<DetailedResult>,
    categoryPerformance: seq<CategoryPerformance>,
    failureAnalysis: seq<FailureAnalysis>,
    recommendations: seq<string>,
    systemHealth: SystemHealth)

  /** The document of a new logger: all zeros, the API taken as fully
      available. */
  const EmptyResults: TestResults :=
    TestResults(TestSession(0, 0, 0.0, 0.0, 0, 0, 0, 0.0, 0.0), [], [], [], [], SystemHealth(100.0, 0.0, 0.0, 0.0))

  /** The figures of a document that `updateRunningStats` writes. */
  function StatsOf(doc: TestResults): Stats {
    var summary, health := doc.sessionSummary, doc.systemHealth;
    Stats(summary.avgScore, summary.passCount, summary.failCount, summary.criticalCount, summary.passRate,
          summary.costEstimate, health.avgResponseTime, health.documentRetrievalRate, health.classificationAccuracy)
  }

  /** The parts of the document that logging an answer leaves alone. */
  predicate SameReport(a: TestResults, b: TestResults) {
    && a.sessionSummary.totalQuestions == b.sessionSummary.totalQuestions
    && a.sessionSummary.durationMinutes == b.sessionSummary.durationMinutes
    && a.systemHealth.apiAvailability == b.systemHealth.apiAvailability
    && a.categoryPerformance == b.categoryPerformance
    && a.failureAnalysis == b.failureAnalysis
    && a.recommendations == b.recommendations
  }

  /** The document with its figures replaced: the figures read back are
      the new ones, and nothing else changes. */
  function WithStats(doc: TestResults, st: Stats): (r: TestResults)
    ensures StatsOf(r) == st
    ensures SameReport(doc, r) && r.detailedResults == doc.detailedResults
    ensures r.sessionSummary.completed == doc.sessionSummary.completed
  {
    doc.(sessionSummary := doc.sessionSummary.(avgScore := st.avgScore, passCount := st.passCount,
                                               failCount := st.failCount, criticalCount := st.criticalCount,
                                               passRate := st.passRate, costEstimate := st.costEstimate),
         systemHealth := doc.systemHealth.(avgResponseTime := st.avgResponseTime,
                                           documentRetrievalRate := st.documentRetrievalRate,
                                           classificationAccuracy := st.classificationAccuracy))
  }

  /** `TestLogger`: the results document of one session, filled in as the
      answers come in and completed when the session ends. Times are
      milliseconds on a clock the caller reads. */
  class TestLogger {
    const startTime: int
    var results: TestResults

    /** The number completed is the number of results, and the figures are
        those of the results logged so far. */
    ghost predicate Valid()
      reads this
    {
      results.sessionSummary.completed == |results.detailedResults|
      && StatsOf(results) == SessionStats(results.detailedResults)
    }

    constructor(startTime: int)
      ensures Valid()
      ensures this.startTime == startTime && results == EmptyResults
    {
      this.startTime := startTime;
      results := EmptyResults;
    }

    method InitializeSession(totalQuestions: int)
      modifies this
      ensures results == old(results).(sessionSummary := old(results).sessionSummary.(totalQuestions := totalQuestions))
    {
      results := results.(sessionSummary := results.sessionSummary.(totalQuestions := totalQuestions));
    }

    /** Recomputes the figures over the whole log; nothing changes while
        the log is empty. */
    method UpdateRunningStats()
      modifies this
      ensures old(results.detailedResults) == [] ==> results == old(results)
      ensures old(results.detailedResults) != [] ==>
                results == WithStats(old(results), RunningStats(old(results.detailedResults)))
    {
      var completed := results.detailedResults;
      if completed == [] {
        return;
      }
      var n := |completed|;
      var passCount := |Filter(completed, IsPass)|;
      results := results.(sessionSummary := results.sessionSummary.(
        avgScore := TotalScore(completed) / n as real,
        passCount := passCount,
        failCount := |Filter(completed, IsFail)|,
        criticalCount := |Filter(completed, IsCritical)|,
        passRate := Percent(passCount, n),
        costEstimate := n as real * CostPerQuestion));
      results := results.(systemHealth := results.systemHealth.(
        avgResponseTime := TotalTime(completed) / n as real,
        documentRetrievalRate := Percent(|Filter(completed, HasDocuments)|, n),
        classificationAccuracy := Percent(|Filter(completed, ClassifiedCorrectly)|, n)));
    }

    /** Appends the record of one answer, counts it and refreshes the
        figures. */
    method LogQuestionResult(q: QuestionParsing.TestQuestion, querySent: string,
                             classification: Option<ClassificationInfo>, documentsFound: int,
                             response: string, evaluation: EvaluationResult, processingTime: real)
      requires Valid()
      modifies this
      ensures Valid()
      ensures results.detailedResults == old(results.detailedResults) +
                [Record(q, querySent, classification, documentsFound, response, evaluation, processingTime)]
      ensures results.sessionSummary.completed == old(results.sessionSummary.completed) + 1
      ensures SameReport(old(results), results)
    {
      var record := Record(q, querySent, classification, documentsFound, response, evaluation, processingTime);
      results := results.(detailedResults := results.detailedResults + [record]);
      results := results.(sessionSummary := results.sessionSummary.(completed := results.sessionSummary.completed + 1));
      UpdateRunningStats();
    }

    /** The loop of `generateCategoryPerformance` that groups the results
        by category. */
    method GroupByCategory() returns (g: Groups<string, DetailedResult>)
      ensures g == Grouped(CategoryPairs(results.detailedResults))
    {
      var rs := results.detailedResults;
      g := [];
      for i := 0 to |rs|
        invariant g == Grouped(CategoryPairs(rs[..i]))
      {
        var pairs := CategoryPairs(rs[..i + 1]);
        assert pairs[..|pairs| - 1] == CategoryPairs(rs[..i]);
        g := Push(g, rs[i].category, rs[i]);
      }
      assert rs[..|rs|] == rs;
    }

    method GenerateCategoryPerformance() returns (r: seq<CategoryPerformance>)
      ensures r == CategoryPerformanceOf(results.detailedResults)
    {
      var g := GroupByCategory();
      GroupedNonEmpty(CategoryPairs(results.detailedResults));
      r := SortDesc(Performances(g), AvgScoreOf);
    }

    /** The loops of `generateFailureAnalysis` that group the questions by
        the issues of the answers that did not pass. */
    method CollectFailures() returns (g: Groups<string, int>)
      ensures g == Grouped(FailurePairs(results.detailedResults))
    {
      var rs := results.detailedResults;
      g := [];
      for i := 0 to |rs|
        invariant g == Grouped(FailurePairs(rs[..i]))
      {
        var result := rs[i];
        FailurePairsStep(rs, i);
        if !IsPass(result) {
          g := PushIssues(g, result.evaluation.issues, result.questionId, FailurePairs(rs[..i]));
        } else {
          assert FailurePairs(rs[..i]) + [] == FailurePairs(rs[..i]);
        }
      }
      assert rs[..|rs|] == rs;
    }

    /** The inner loop: one push per issue of an answer. */
    method PushIssues(g0: Groups<string, int>, issues: seq<string>, id: int, ghost before: seq<(string, int)>)
      returns (g: Groups<string, int>)
      requires g0 == Grouped(before)
      ensures g == Grouped(before + IssuePairs(issues, id))
    {
      g := g0;
      assert before + IssuePairs(issues[..0], id) == before;
      for j := 0 to |issues|
        invariant g == Grouped(before + IssuePairs(issues[..j], id))
      {
        var pairs := before + IssuePairs(issues[..j + 1], id);
        assert pairs[..|pairs| - 1] == before + IssuePairs(issues[..j], id);
        g := Push(g, issues[j], id);
      }
      assert issues[..|issues|] == issues;
    }

    method GenerateFailureAnalysis() returns (r: seq<FailureAnalysis>)
      requires Valid()
      ensures r == FailureAnalysisOf(results.detailedResults)
    {
      var g := CollectFailures();
      var totalFailed := results.sessionSummary.failCount + results.sessionSummary.criticalCount;
      assert totalFailed == FailedCount(results.detailedResults);
      FailuresNeedFailedAnswers(results.detailedResults);
      r := SortDesc(FailureEntries(g, totalFailed), CountOf);
    }

    /** `generateRecommendations` on the figures and the analyses held. */
    method GenerateRecommendations() returns (r: seq<string>)
      ensures r == SessionRecommendations(StatsOf(results), results.categoryPerformance, results.failureAnalysis)
    {
      var summary, health := results.sessionSummary, results.systemHealth;
      r := [];
      if summary.passRate < 70.0 {
        r := r + [CriticalRecommendation];
      }
      if health.documentRetrievalRate < 60.0 {
        r := r + [RetrievalRecommendation];
      }
      if health.classificationAccuracy < 75.0 {
        r := r + [AccuracyRecommendation];
      }
      ghost var overall := r;
      assert overall == OverallPart(StatsOf(results));
      var poor := PoorCategories(results.categoryPerformance);
      if poor != [] {
        r := r + [PoorCategoriesRecommendation(poor)];
      }
      assert r == overall + CategoryPart(results.categoryPerformance);
      r := PushFailureRecommendations(r, results.failureAnalysis);
      ghost var before := r;
      if summary.avgScore > 0.8 {
        r := r + [PositiveRecommendation];
      }
      assert r == before + PositivePart(0.8, StatsOf(results));
    }

    /** The loop over the high-priority failures. */
    method PushFailureRecommendations(head: seq<string>, fs: seq<FailureAnalysis>) returns (r: seq<string>)
      ensures r == head + FailurePart(fs)
    {
      r := head;
      for k := 0 to |fs|
        invariant r == head + FailurePart(fs[..k])
      {
        var failure := fs[k];
        assert fs[..k + 1][..k] == fs[..k];
        if failure.priority == High {
          r := r + [FailureRecommendation(failure)];
        }
      }
      assert fs[..|fs|] == fs;
    }

    /** Ends the session: the elapsed minutes since the logger was made, the
        performance per category, the failure analysis and the
        recommendations drawn from them. */
    method FinalizeSession(endTime: int)
      requires Valid()
      modifies this
      ensures Valid()
      ensures results.detailedResults == old(results.detailedResults)
      ensures results.sessionSummary == old(results.sessionSummary).(durationMinutes := (endTime - startTime) as real / 60000.0)
      ensures results.systemHealth == old(results.systemHealth)
      ensures results.categoryPerformance == CategoryPerformanceOf(results.detailedResults)
      ensures results.failureAnalysis == FailureAnalysisOf(results.detailedResults)
      ensures results.recommendations ==
                SessionRecommendations(StatsOf(results), results.categoryPerformance, results.failureAnalysis)
    {
      results := results.(sessionSummary := results.sessionSummary.(durationMinutes := (endTime - startTime) as real / 60000.0));
      var categories := GenerateCategoryPerformance();
      results := results.(categoryPerformance := categories);
      var failures := GenerateFailureAnalysis();
      results := results.(failureAnalysis := failures);
      var recommendations := GenerateRecommendations();
      results := results.(recommendations := recommendations);
    }
  }
}
