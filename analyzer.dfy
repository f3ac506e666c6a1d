/** The test-result classifier of tests/playwright/superclaude_analyzer.py:
    a fixed rule table turns a record of Playwright results into an ordered
    list of issues and an overall status, and the HIGH-severity issues are
    rendered as the body of a GitHub issue. */
module TestAnalyzer {
  import opened Wrappers
  import opened Text

  /** The `type` of an issue. */
  datatype Category = Performance | Compatibility | Accessibility | Functional | Responsive

  datatype Severity = High | Medium

  /** `overall_status`. */
  datatype Status = Pass | Warning | Fail

  datatype Issue = Issue(category: Category, severity: Severity, message: string, recommendation: string)

  /** The parts of the analysis dictionary the rules fill in. */
  datatype Analysis = Analysis(timestamp: string, status: Status, issues: seq<Issue>)

  /** The input record. Each section is None when its key is absent; inside
      a section, None stands for an absent key. Test tables keep their
      insertion order, and a status is its truth value. */
  datatype TestResults = TestResults(
    performance: Option<Option<int>>,
    browserTests: Option<seq<(string, bool)>>,
    accessibility: Option<Option<int>>,
    functionalTests: Option<seq<(string, bool)>>,
    mobileTests: Option<Option<bool>>)

  /** The order the rules run in. */
  function Rank(c: Category): nat {
    match c
    case Performance => 0
    case Compatibility => 1
    case Accessibility => 2
    case Functional => 3
    case Responsive => 4
  }

  function CategoryName(c: Category): string {
    match c
    case Performance => "PERFORMANCE"
    case Compatibility => "COMPATIBILITY"
    case Accessibility => "ACCESSIBILITY"
    case Functional => "FUNCTIONAL"
    case Responsive => "RESPONSIVE"
  }

  /** Failed performance and functional checks are HIGH, the rest MEDIUM. */
  function SeverityOf(c: Category): Severity {
    if c == Performance || c == Functional then High else Medium
  }

  /** The names whose status is false, in table order. */
  function FailedNames(tests: seq<(string, bool)>): (r: seq<string>)
    ensures |r| <= |tests|
    ensures r == [] <==> forall i :: 0 <= i < |tests| ==> tests[i].1
    ensures forall name :: name in r <==> exists i :: 0 <= i < |tests| && tests[i].0 == name && !tests[i].1
  {
    if tests == [] then []
    else
      var rest := FailedNames(tests[1..]);
      assert forall i :: 1 <= i < |tests| ==> tests[1..][i - 1] == tests[i];
      (if tests[0].1 then [] else [tests[0].0]) + rest
  }

  /** Collecting failed names distributes over concatenation: the names
      come out in table order, as the joined message prints them. */
  lemma {:induction false} FailedNamesAppend(a: seq<(string, bool)>, b: seq<(string, bool)>)
    ensures FailedNames(a + b) == FailedNames(a) + FailedNames(b)
    decreases |a|
  {
    if a == [] {
      assert a + b == b;
    } else {
      assert (a + b)[1..] == a[1..] + b;
      FailedNamesAppend(a[1..], b);
    }
  }

  /** `perf.get('loadTime', 0)` and `results['accessibility'].get('score', 0)`. */
  function ValueOrZero(v: Option<int>): int {
    if v.Some? then v.value else 0
  }

  function LoadTime(results: TestResults): int
    requires results.performance.Some?
  {
    ValueOrZero(results.performance.value)
  }

  function AccessibilityScore(results: TestResults): int
    requires results.accessibility.Some?
  {
    ValueOrZero(results.accessibility.value)
  }

  /** When each rule reports an issue. */
  predicate Triggered(results: TestResults, c: Category) {
    match c
    case Performance => results.performance.Some? && LoadTime(results) > 3000
    case Compatibility => results.browserTests.Some? && FailedNames(results.browserTests.value) != []
    case Accessibility => results.accessibility.Some? && AccessibilityScore(results) < 80
    case Functional => results.functionalTests.Some? && FailedNames(results.functionalTests.value) != []
    case Responsive => results.mobileTests.Some? && results.mobileTests.value == Some(false)
  }

  // The issue messages and recommendations. A fixed text longer than a few
  // words is split into concatenated pieces, which denote the same string
  // and keep the proofs that carry these terms within the solver's budget.

  function PerformanceMessage(loadTime: int): string {
    "페이지 로딩 시간이 " + IntToString(loadTime) + "ms로 너무 깁니다 (권장: <3000ms)"
  }

  function CompatibilityMessage(failed: seq<string>): string {
    "다음 브라우저에서 테스트 실패: " + Join(failed, ", ")
  }

  function AccessibilityMessage(score: int): string {
    "접근성 점수가 " + IntToString(score) + "점으로 낮습니다 (권장: >80점)"
  }

  function FunctionalMessage(failed: seq<string>): string {
    "기능 테스트 실패: " + Join(failed, ", ")
  }

  function ResponsiveMessage(): string {
    "모바일 반응형 " + "디자인에 문제가 있습니다"
  }

  /** The advice attached to each category, in rule order. */
  const Recommendations: seq<string> := [
    "이미지 최적화, CSS/JS 압축, " + "CDN 사용을 고려하세요",
    "브라우저별 CSS 접두사 및 " + "JavaScript 폴리필을 확인하세요",
    "alt 속성, ARIA 라벨, " + "키보드 네비게이션을 개선하세요",
    "JavaScript 콘솔 에러를 확인하고 " + "폼 검증 로직을 점검하세요",
    "CSS 미디어 쿼리와 " + "flexbox/grid 레이아웃을 확인하세요"]

  function Recommendation(c: Category): string {
    assert |Recommendations| == 5;
    Recommendations[Rank(c)]
  }

  /** The issue a triggered rule appends. */
  function IssueFor(results: TestResults, c: Category): (issue: Issue)
    requires Triggered(results, c)
    ensures issue.category == c && issue.severity == SeverityOf(c) && issue.recommendation == Recommendation(c)
  {
    match c
    case Performance => Issue(c, High, PerformanceMessage(LoadTime(results)), Recommendation(c))
    case Compatibility => Issue(c, Medium, CompatibilityMessage(FailedNames(results.browserTests.value)), Recommendation(c))
    case Accessibility => Issue(c, Medium, AccessibilityMessage(AccessibilityScore(results)), Recommendation(c))
    case Functional => Issue(c, High, FunctionalMessage(FailedNames(results.functionalTests.value)), Recommendation(c))
    case Responsive => Issue(c, Medium, ResponsiveMessage(), Recommendation(c))
  }

  /** `x` is the issue its category's rule reports, and that rule fired. */
  predicate IsRuleIssue(results: TestResults, x: Issue) {
    Triggered(results, x.category) && x == IssueFor(results, x.category)
  }

  /** What one rule contributes: its issue when it is triggered. */
  function Rule(results: TestResults, c: Category): (r: seq<Issue>)
    ensures |r| <= 1
    ensures r != [] <==> Triggered(results, c)
    ensures r != [] ==> r[0] == IssueFor(results, c) && IsRuleIssue(results, r[0])
  {
    if Triggered(results, c) then [IssueFor(results, c)] else []
  }

  /** The rules for `cats`, run in that order. */
  function RuleList(results: TestResults, cats: seq<Category>): seq<Issue>
    decreases |cats|
  {
    if cats == [] then []
    else RuleList(results, cats[..|cats| - 1]) + Rule(results, cats[|cats| - 1])
  }

  const RuleOrder: seq<Category> := [Performance, Compatibility, Accessibility, Functional, Responsive]

  /** The issue list the analyzer produces. */
  function ExpectedIssues(results: TestResults): seq<Issue> {
    RuleList(results, RuleOrder)
  }

  /** The status the analyzer reports: FAIL when a functional test failed,
      whatever else happened; otherwise WARNING when the page loaded slowly;
      otherwise PASS. */
  function ExpectedStatus(results: TestResults): (s: Status)
    ensures s == Fail <==> Triggered(results, Functional)
    ensures s == Warning <==> Triggered(results, Performance) && !Triggered(results, Functional)
  {
    if Triggered(results, Functional) then Fail
    else if Triggered(results, Performance) then Warning
    else Pass
  }

  /** The performance check: a load time above 3000 ms, a missing one
      counting as 0, appends the PERFORMANCE issue and sets WARNING. */
  method CheckPerformance(results: TestResults, issues: seq<Issue>, status: Status)
    returns (issues': seq<Issue>, status': Status)
    ensures issues' == issues + Rule(results, Performance)
    ensures status' == if Triggered(results, Performance) then Warning else status
  {
    issues', status' := issues, status;
    if results.performance.Some? {
      var loadTime := ValueOrZero(results.performance.value);
      if loadTime > 3000 {
        issues' := issues' + [IssueFor(results, Performance)];
        status' := Warning;
      }
    }
    AppendEmpty(issues);
  }

  /** The browser check: any browser whose test failed appends the
      COMPATIBILITY issue naming them all. */
  method CheckBrowsers(results: TestResults, issues: seq<Issue>) returns (issues': seq<Issue>)
    ensures issues' == issues + Rule(results, Compatibility)
  {
    issues' := issues;
    if results.browserTests.Some? {
      var failedBrowsers := FailedNames(results.browserTests.value);
      if failedBrowsers != [] {
        issues' := issues' + [IssueFor(results, Compatibility)];
      }
    }
    AppendEmpty(issues);
  }

  /** The accessibility check: a score below 80, a missing one counting as
      0, appends the ACCESSIBILITY issue. */
  method CheckAccessibility(results: TestResults, issues: seq<Issue>) returns (issues': seq<Issue>)
    ensures issues' == issues + Rule(results, Accessibility)
  {
    issues' := issues;
    if results.accessibility.Some? {
      var accScore := ValueOrZero(results.accessibility.value);
      if accScore < 80 {
        issues' := issues' + [IssueFor(results, Accessibility)];
      }
    }
    AppendEmpty(issues);
  }

  /** The functional check: any failed test appends the FUNCTIONAL issue and
      sets FAIL, whatever the status was. */
  method CheckFunctional(results: TestResults, issues: seq<Issue>, status: Status)
    returns (issues': seq<Issue>, status': Status)
    ensures issues' == issues + Rule(results, Functional)
    ensures status' == if Triggered(results, Functional) then Fail else status
  {
    issues', status' := issues, status;
    if results.functionalTests.Some? {
      var failedTests := FailedNames(results.functionalTests.value);
      if failedTests != [] {
        issues' := issues' + [IssueFor(results, Functional)];
        status' := Fail;
      }
    }
    AppendEmpty(issues);
  }

  /** The mobile check: `responsive` being false, a missing flag counting as
      true, appends the RESPONSIVE issue. */
  method CheckResponsive(results: TestResults, issues: seq<Issue>) returns (issues': seq<Issue>)
    ensures issues' == issues + Rule(results, Responsive)
  {
    issues' := issues;
    if results.mobileTests.Some? {
      if results.mobileTests.value == Some(false) {
        issues' := issues' + [IssueFor(results, Responsive)];
      }
    }
    AppendEmpty(issues);
  }

  /** analyze_test_results: the status starts at PASS and the five checks
      run in order, each appending its issue to the same list. */
  method AnalyzeTestResults(results: TestResults, timestamp: string) returns (analysis: Analysis)
    ensures analysis == Analysis(timestamp, ExpectedStatus(results), ExpectedIssues(results))
  {
    var status := Pass;
    var issues: seq<Issue> := [];
    issues, status := CheckPerformance(results, issues, status);
    issues := CheckBrowsers(results, issues);
    issues := CheckAccessibility(results, issues);
    issues, status := CheckFunctional(results, issues, status);
    issues := CheckResponsive(results, issues);
    EmptyAppend(Rule(results, Performance));
    UnfoldRuleOrder(results);
    analysis := Analysis(timestamp, status, issues);
  }

  // AppendEmpty, EmptyAppend and FirstOfAppend below are facts Dafny knows,
  // stated as lemmas so the proofs about issue lists and report texts can
  // cite them for plain sequences rather than leave the solver to find them.

  /** Appending nothing changes nothing. */
  lemma AppendEmpty<T>(x: seq<T>)
    ensures x + [] == x
  {
  }

  /** Nothing followed by a sequence is that sequence. */
  lemma EmptyAppend<T>(x: seq<T>)
    ensures [] + x == x
  {
  }

  /** The issue list is the five rules' contributions, in rule order. */
  lemma UnfoldRuleOrder(results: TestResults)
    ensures ExpectedIssues(results) ==
      Rule(results, Performance) + Rule(results, Compatibility) + Rule(results, Accessibility)
      + Rule(results, Functional) + Rule(results, Responsive)
  {
    var o := RuleOrder;
    assert o[..4][..3] == o[..3] && o[..3][..2] == o[..2] && o[..2][..1] == o[..1] && o[..1][..0] == [];
    EmptyAppend(Rule(results, Performance));
    assert RuleList(results, o[..1]) == [] + Rule(results, Performance);
    assert RuleList(results, o[..2]) == RuleList(results, o[..1]) + Rule(results, Compatibility);
    assert RuleList(results, o[..3]) == RuleList(results, o[..2]) + Rule(results, Accessibility);
    assert RuleList(results, o[..4]) == RuleList(results, o[..3]) + Rule(results, Functional);
    assert RuleList(results, o) == RuleList(results, o[..4]) + Rule(results, Responsive);
  }

  /** The categories of `issues` have strictly increasing ranks. */
  predicate Ordered(issues: seq<Issue>) {
    forall i, j :: 0 <= i < j < |issues| ==> Rank(issues[i].category) < Rank(issues[j].category)
  }

  /** Every issue of the rules for `cats` belongs to one of them and is the
      issue of a rule that fired. */
  lemma {:induction false} RuleListSound(results: TestResults, cats: seq<Category>)
    ensures forall i :: 0 <= i < |RuleList(results, cats)| ==>
      RuleList(results, cats)[i].category in cats && IsRuleIssue(results, RuleList(results, cats)[i])
    decreases |cats|
  {
    if cats != [] {
      var n := |cats| - 1;
      var front := cats[..n];
      var prefix := RuleList(results, front);
      var last := Rule(results, cats[n]);
      RuleListSound(results, front);
      var r := prefix + last;
      assert RuleList(results, cats) == r;
      forall i | 0 <= i < |r|
        ensures r[i].category in cats && IsRuleIssue(results, r[i])
      {
        if i < |prefix| {
          assert r[i] == prefix[i];
          var k :| 0 <= k < n && front[k] == prefix[i].category;
          assert cats[k] == front[k];
        } else {
          assert r[i] == last[0];
          assert cats[n] in cats;
        }
      }
    }
  }

  /** Appending at most one issue of a category ranked above all earlier
      ones keeps the order. */
  lemma OrderedAppend(a: seq<Issue>, b: seq<Issue>, c: Category)
    requires Ordered(a)
    requires forall i :: 0 <= i < |a| ==> Rank(a[i].category) < Rank(c)
    requires |b| <= 1 && (b != [] ==> b[0].category == c)
    ensures Ordered(a + b)
  {
    var r := a + b;
    forall i, j | 0 <= i < j < |r|
      ensures Rank(r[i].category) < Rank(r[j].category)
    {
      assert r[i] == a[i];
      if j < |a| {
        assert r[j] == a[j];
      } else {
        assert r[j] == b[0];
      }
    }
  }

  /** The rules run in a strictly increasing order of categories produce
      issues in that order. */
  lemma {:induction false} RuleListOrdered(results: TestResults, cats: seq<Category>)
    requires forall i, j :: 0 <= i < j < |cats| ==> Rank(cats[i]) < Rank(cats[j])
    ensures Ordered(RuleList(results, cats))
    decreases |cats|
  {
    if cats != [] {
      var n := |cats| - 1;
      var front := cats[..n];
      RuleListOrdered(results, front);
      RuleListSound(results, front);
      var prefix := RuleList(results, front);
      forall i | 0 <= i < |prefix|
        ensures Rank(prefix[i].category) < Rank(cats[n])
      {
        var k :| 0 <= k < n && front[k] == prefix[i].category;
        assert cats[k] == front[k];
      }
      OrderedAppend(prefix, Rule(results, cats[n]), cats[n]);
    }
  }

  /** Some issue in `issues` has category `c`. */
  predicate Reports(issues: seq<Issue>, c: Category) {
    exists i :: 0 <= i < |issues| && issues[i].category == c
  }

  /** Every rule for `cats` that fires has its issue among theirs. */
  lemma {:induction false} RuleListComplete(results: TestResults, cats: seq<Category>)
    ensures forall c :: c in cats && Triggered(results, c) ==> Reports(RuleList(results, cats), c)
    decreases |cats|
  {
    if cats != [] {
      var n := |cats| - 1;
      var front := cats[..n];
      var prefix := RuleList(results, front);
      var last := Rule(results, cats[n]);
      RuleListComplete(results, front);
      var r := prefix + last;
      assert RuleList(results, cats) == r;
      forall c | c in cats && Triggered(results, c)
        ensures Reports(r, c)
      {
        if c == cats[n] {
          assert r[|prefix|].category == c;
        } else {
          var k :| 0 <= k < |cats| && cats[k] == c;
          assert k < n && front[k] == c;
          var i :| 0 <= i < |prefix| && prefix[i].category == c;
          assert r[i].category == c;
        }
      }
    }
  }

  /** Every category appears in the rule order. */
  lemma RuleOrderCoversAll(c: Category)
    ensures c in RuleOrder
  {
    match c
    case Performance => assert RuleOrder[0] == c;
    case Compatibility => assert RuleOrder[1] == c;
    case Accessibility => assert RuleOrder[2] == c;
    case Functional => assert RuleOrder[3] == c;
    case Responsive => assert RuleOrder[4] == c;
  }

  /** The analyzer's issues come in the order PERFORMANCE, COMPATIBILITY,
      ACCESSIBILITY, FUNCTIONAL, RESPONSIVE, so no category has two. */
  lemma IssuesInRuleOrder(results: TestResults)
    ensures Ordered(ExpectedIssues(results))
    ensures forall i, j :: 0 <= i < j < |ExpectedIssues(results)| ==>
      ExpectedIssues(results)[i].category != ExpectedIssues(results)[j].category
  {
    RuleListOrdered(results, RuleOrder);
  }

  /** A category has an issue exactly when its rule fires. */
  lemma IssueIffTriggered(results: TestResults, c: Category)
    ensures Reports(ExpectedIssues(results), c) <==> Triggered(results, c)
  {
    RuleListSound(results, RuleOrder);
    RuleOrderCoversAll(c);
    RuleListComplete(results, RuleOrder);
  }

  /** Each issue is the one its category's rule builds, with that category's
      severity and recommendation. */
  lemma IssueFields(results: TestResults)
    ensures forall i :: 0 <= i < |ExpectedIssues(results)| ==>
      && IsRuleIssue(results, ExpectedIssues(results)[i])
      && ExpectedIssues(results)[i].severity == SeverityOf(ExpectedIssues(results)[i].category)
      && ExpectedIssues(results)[i].recommendation == Recommendation(ExpectedIssues(results)[i].category)
  {
    RuleListSound(results, RuleOrder);
  }

  /** The status agrees with the issue list: FAIL exactly when there is a
      FUNCTIONAL issue, and PASS exactly when there is no HIGH issue. */
  lemma StatusMatchesIssues(results: TestResults)
    ensures ExpectedStatus(results) == Fail <==> Reports(ExpectedIssues(results), Functional)
    ensures ExpectedStatus(results) == Pass <==>
      forall i :: 0 <= i < |ExpectedIssues(results)| ==> ExpectedIssues(results)[i].severity != High
  {
    var r := ExpectedIssues(results);
    IssueIffTriggered(results, Functional);
    IssueIffTriggered(results, Performance);
    IssueFields(results);
    if ExpectedStatus(results) != Pass {
      var c := if Triggered(results, Functional) then Functional else Performance;
      assert Reports(r, c);
      var i :| 0 <= i < |r| && r[i].category == c;
      assert r[i].severity == High;
    } else {
      forall i | 0 <= i < |r|
        ensures r[i].severity != High
      {
        var c := r[i].category;
        assert Reports(r, c);
        IssueIffTriggered(results, c);
      }
    }
  }

  // ------------------------------------------------------------------
  // GitHub issue body
  // ------------------------------------------------------------------

  /** The HIGH issues, in order. */
  function HighIssues(issues: seq<Issue>): (r: seq<Issue>)
    ensures |r| <= |issues|
    ensures forall x :: x in r <==> x in issues && x.severity == High
  {
    if issues == [] then []
    else (if issues[0].severity == High then [issues[0]] else []) + HighIssues(issues[1..])
  }

  lemma {:induction false} HighIssuesAppend(a: seq<Issue>, b: seq<Issue>)
    ensures HighIssues(a + b) == HighIssues(a) + HighIssues(b)
  {
    if a == [] {
      assert a + b == b;
    } else {
      assert (a + b)[1..] == a[1..] + b;
      HighIssuesAppend(a[1..], b);
    }
  }

  /** A rule's issue survives the HIGH filter exactly when its category is
      HIGH. */
  lemma HighIssuesOfRule(results: TestResults, c: Category)
    ensures HighIssues(Rule(results, c)) == if SeverityOf(c) == High then Rule(results, c) else []
  {
    var r := Rule(results, c);
    if r != [] {
      assert r[1..] == [];
      AppendEmpty(HighIssues(r[..1]));
    }
  }

  /** Filtering five blocks in a row, of which only the first and the
      fourth hold HIGH issues, keeps exactly those two. */
  lemma HighIssuesOfFive(p: seq<Issue>, c: seq<Issue>, a: seq<Issue>, f: seq<Issue>, m: seq<Issue>)
    requires HighIssues(p) == p && HighIssues(f) == f
    requires HighIssues(c) == [] && HighIssues(a) == [] && HighIssues(m) == []
    ensures HighIssues(p + c + a + f + m) == p + f
  {
    HighIssuesAppend(p, c);
    AppendEmpty(p);
    HighIssuesAppend(p + c, a);
    HighIssuesAppend(p + c + a, f);
    HighIssuesAppend(p + c + a + f, m);
    AppendEmpty(p + f);
  }

  /** Of the analyzer's issues, exactly the PERFORMANCE and FUNCTIONAL ones
      are HIGH, in that order. */
  lemma HighIssuesOfAnalysis(results: TestResults)
    ensures HighIssues(ExpectedIssues(results)) == Rule(results, Performance) + Rule(results, Functional)
  {
    UnfoldRuleOrder(results);
    HighIssuesOfRule(results, Performance);
    HighIssuesOfRule(results, Compatibility);
    HighIssuesOfRule(results, Accessibility);
    HighIssuesOfRule(results, Functional);
    HighIssuesOfRule(results, Responsive);
    HighIssuesOfFive(Rule(results, Performance), Rule(results, Compatibility), Rule(results, Accessibility),
      Rule(results, Functional), Rule(results, Responsive));
  }

  /** The all-clear text, in pieces as the messages above are. */
  function NoIssueMessage(): string {
    "🎉 심각한 이슈가 " + "발견되지 않았습니다!"
  }

  /** The opening of the issue body, with the analysis timestamp. Like the
      sections below it is a block of lines joined by line breaks that
      begins with an empty line; the fixed parts are constants. The texts
      are written as joined lines, and the longer messages as concatenated
      pieces, because the solver handles those more cheaply than one long
      literal; they denote the same strings as the source's f-strings. */
  function IssueHeader(timestamp: string): string {
    HeaderBeforeTime + timestamp + HeaderAfterTime
  }

  const HeaderBeforeTime: string := Join(["",
    "# 🐛 자동 감지된 웹사이트 이슈",
    "",
    "**감지 시간**: "], "\n")

  const HeaderAfterTime: string := Join(["",
    "**심각도**: HIGH",
    "**영향 범위**: 사용자 경험",
    "",
    "## 📋 이슈 목록",
    ""], "\n")

  /** The section for the i-th HIGH issue. */
  function IssueBlock(i: nat, issue: Issue): string {
    Join(["",
          "### " + NatToString(i) + ". " + CategoryName(issue.category) + " 문제",
          "- **문제 설명**: " + issue.message,
          "- **추천 해결책**: " + issue.recommendation,
          ""], "\n")
  }

  /** The fixed closing sections. */
  function IssueTrailer(): string {
    TrailerText
  }

  const TrailerText: string := Join(["",
          "## 🔧 해결 우선순위",
          "1. 기능적 문제 (FUNCTIONAL) - 즉시 수정 필요",
          "2. 성능 문제 (PERFORMANCE) - 1주일 내 수정",
          "3. 호환성 문제 (COMPATIBILITY) - 2주일 내 수정",
          "",
          "## 📝 추가 정보",
          "- 테스트 환경: Playwright E2E 테스트",
          "- 브라우저: Chrome, Firefox, Safari",
          "- 디바이스: 데스크톱, 모바일",
          "",
          "---",
          "*SuperClaude 자동 이슈 감지 시스템*",
          ""], "\n")

  /** The text accumulated after the first `n` HIGH issues: the header,
      then one numbered section per issue, in order. */
  function ReportPrefix(timestamp: string, high: seq<Issue>, n: nat): string
    requires n <= |high|
  {
    if n == 0 then IssueHeader(timestamp)
    else ReportPrefix(timestamp, high, n - 1) + IssueBlock(n, high[n - 1])
  }

  /** The text create_github_issue returns for an analysis. */
  function IssueReport(analysis: Analysis): string {
    var high := HighIssues(analysis.issues);
    if high == [] then NoIssueMessage()
    else ReportPrefix(analysis.timestamp, high, |high|) + IssueTrailer()
  }

  /** create_github_issue: the header, one section per HIGH issue numbered
      from 1, then the fixed closing sections. */
  method CreateGithubIssue(analysis: Analysis) returns (issueContent: string)
    ensures issueContent == IssueReport(analysis)
  {
    var highIssues := HighIssues(analysis.issues);
    if |highIssues| == 0 {
      assert highIssues == [];
      return NoIssueMessage();
    }
    issueContent := IssueSections(analysis.timestamp, highIssues);
    issueContent := issueContent + IssueTrailer();
  }

  /** The loop of create_github_issue: the header, then the numbered
      section of each HIGH issue in turn. */
  method IssueSections(timestamp: string, highIssues: seq<Issue>) returns (issueContent: string)
    ensures issueContent == ReportPrefix(timestamp, highIssues, |highIssues|)
  {
    issueContent := IssueHeader(timestamp);
    for i := 0 to |highIssues|
      invariant issueContent == ReportPrefix(timestamp, highIssues, i)
    {
      issueContent := issueContent + IssueBlock(i + 1, highIssues[i]);
    }
  }

  /** Every prefix of a report begins with the header's empty first line. */
  lemma {:induction false} ReportPrefixStartsWithLineBreak(timestamp: string, high: seq<Issue>, n: nat)
    requires n <= |high|
    ensures |ReportPrefix(timestamp, high, n)| > 0 && ReportPrefix(timestamp, high, n)[0] == '\n'
  {
    if n == 0 {
      var lines := ["", "# 🐛 자동 감지된 웹사이트 이슈", "", "**감지 시간**: "];
      assert HeaderBeforeTime == "" + "\n" + Join(lines[1..], "\n");
      FirstOfAppend(HeaderBeforeTime, timestamp);
      FirstOfAppend(HeaderBeforeTime + timestamp, HeaderAfterTime);
    } else {
      ReportPrefixStartsWithLineBreak(timestamp, high, n - 1);
      FirstOfAppend(ReportPrefix(timestamp, high, n - 1), IssueBlock(n, high[n - 1]));
    }
  }

  /** A non-empty sequence keeps its first element when extended. */
  lemma FirstOfAppend<T>(a: seq<T>, b: seq<T>)
    requires |a| > 0
    ensures |a + b| > 0 && (a + b)[0] == a[0]
  {
  }

  /** The all-clear message is returned exactly when there is no HIGH issue:
      a report with issues starts with a line break, the message with an
      emoji. */
  lemma AllClearIffNoHighIssue(analysis: Analysis)
    ensures IssueReport(analysis) == NoIssueMessage() <==> HighIssues(analysis.issues) == []
  {
    var high := HighIssues(analysis.issues);
    if high != [] {
      var prefix := ReportPrefix(analysis.timestamp, high, |high|);
      ReportPrefixStartsWithLineBreak(analysis.timestamp, high, |high|);
      FirstOfAppend(prefix, IssueTrailer());
      assert NoIssueMessage()[0] == '🎉';
    }
  }

  /** For an analysis the analyzer produced, the GitHub issue is the
      all-clear message exactly when the status is PASS. */
  lemma AllClearIffPass(results: TestResults, timestamp: string)
    ensures var analysis := Analysis(timestamp, ExpectedStatus(results), ExpectedIssues(results));
      IssueReport(analysis) == NoIssueMessage() <==> analysis.status == Pass
  {
    HighIssuesOfAnalysis(results);
    AllClearIffNoHighIssue(Analysis(timestamp, ExpectedStatus(results), ExpectedIssues(results)));
  }
}
