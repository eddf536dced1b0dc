/**
 * `generate-report.py`: the five sections of the analysis report, with the
 * emoji and the exact line layout abstracted into tokens.
 */
module Report {
  import opened Wrappers
  import opened Text
  import opened Patterns
  import opened Health

  /** The keys of `STATUS_ICONS`. */
  datatype Icon = Ok | Warning | Error | Info | Search | Chart | Rocket

  // ---------------------------------------------------------------------------
  // Categories

  /** The labels `_get_category` returns. */
  datatype Category = GitConfiguration | Documentation | CiCd | CodeQuality | Setup | Other

  /** `_get_category`: substring tests in a fixed order, the first that holds deciding. */
  function GetCategory(id: String): Category {
    if Contains(id, "gitignore") || Contains(id, "git-") then GitConfiguration
    else if Contains(id, "readme") || Contains(id, "contributing") || Contains(id, "license") then Documentation
    else if Contains(id, "ci") || Contains(id, "workflow") || Contains(id, "docker") then CiCd
    else if Contains(id, "eslint") || Contains(id, "prettier") then CodeQuality
    else if Contains(id, "editorconfig") then Setup
    else Other
  }

  /** The keys of the `categories` dict, in insertion order; `Other` is not among them. */
  function ReportedCategories(): seq<Category> {
    [GitConfiguration, Documentation, CiCd, CodeQuality, Setup]
  }

  /** Position in the report; `Other` sorts after every reported category. */
  function CategoryRank(c: Category): nat {
    match c
    case GitConfiguration => 0
    case Documentation => 1
    case CiCd => 2
    case CodeQuality => 3
    case Setup => 4
    case Other => 5
  }

  /** A category is reported iff it is not `Other`, and its rank is its position in the report. */
  lemma ReportedCategoriesRanked(c: Category)
    ensures c in ReportedCategories() <==> c != Other
    ensures c != Other ==> ReportedCategories()[CategoryRank(c)] == c
  {
  }

  /** An id mentioning a documentation file is never CI/CD, even when it also contains "ci". */
  lemma EarlierTestWins(a: String, b: String)
    requires !Contains(a + "readme" + b, "gitignore") && !Contains(a + "readme" + b, "git-")
    ensures GetCategory(a + "readme" + b) == Documentation
  {
    var id := a + "readme" + b;
    assert OccursAt(id, "readme", |a|) by {
      assert id[|a|..|a| + 6] == "readme";
    }
    OccursContains(id, "readme", |a|);
  }

  /** `readme-ci` mentions CI but is filed under documentation. */
  lemma ReadmeCiIsDocumentation()
    ensures GetCategory("readme-ci") == Documentation
  {
    var id := "readme-ci";
    NotContainsByChar(id, "gitignore", 0);
    NotContainsByChar(id, "git-", 0);
    assert "" + "readme" + "-ci" == id;
    EarlierTestWins("", "-ci");
  }

  lemma CiWorkflowIsCiCd()
    ensures GetCategory("missing-ci-workflow") == CiCd
  {
    var ci := "missing-" + "ci" + "-workflow";
    assert ci == "missing-ci-workflow";
    assert 't' !in ci && 'e' !in ci;
    assert "gitignore"[2] == 't' && "git-"[2] == 't' && "contributing"[3] == 't';
    assert "readme"[1] == 'e' && "license"[3] == 'e';
    NotContainsByChar(ci, "gitignore", 2);
    NotContainsByChar(ci, "git-", 2);
    NotContainsByChar(ci, "readme", 1);
    NotContainsByChar(ci, "contributing", 3);
    NotContainsByChar(ci, "license", 3);
    assert OccursAt(ci, "ci", 8) by {
      assert ci[8..10] == "ci";
    }
    OccursContains(ci, "ci", 8);
  }

  /** An id that matches none of the tests is filed under `Other`, and so never reported. */
  lemma UnmatchedIsOther()
    ensures GetCategory("todo") == Other
  {
    var t := "todo";
    NotContainsByChar(t, "gitignore", 0);
    NotContainsByChar(t, "git-", 0);
    NotContainsByChar(t, "readme", 0);
    NotContainsByChar(t, "contributing", 0);
    NotContainsByChar(t, "license", 0);
    NotContainsByChar(t, "ci", 0);
    NotContainsByChar(t, "workflow", 0);
    NotContainsByChar(t, "docker", 2);
    NotContainsByChar(t, "eslint", 0);
    NotContainsByChar(t, "prettier", 0);
    NotContainsByChar(t, "editorconfig", 0);
  }

  // ---------------------------------------------------------------------------
  // Descriptions

  /** The `descriptions` table. */
  function Descriptions(): seq<(String, String)> {
    [("missing-gitignore", "Missing .gitignore"),
     ("missing-ci-workflow", "No CI/CD configuration"),
     ("missing-git-hooks", "Missing Git hooks"),
     ("missing-readme", "Missing README.md"),
     ("readme-minimal", "README.md is minimal"),
     ("missing-contributing", "Missing CONTRIBUTING.md"),
     ("missing-license", "Missing LICENSE"),
     ("missing-build-workflow", "Missing build workflow"),
     ("missing-release-workflow", "Missing release workflow"),
     ("missing-dockerfile", "Missing Dockerfile"),
     ("missing-eslint", "Missing ESLint configuration"),
     ("missing-prettier", "Missing Prettier configuration"),
     ("missing-editorconfig", "Missing .editorconfig")]
  }

  /** The value of the first entry of `table` whose key is `key`. */
  function Lookup(table: seq<(String, String)>, key: String): (r: Option<String>)
    ensures r.None? <==> forall k :: 0 <= k < |table| ==> table[k].0 != key
    ensures r.Some? ==> exists k :: (0 <= k < |table| && table[k] == (key, r.value) &&
      forall j :: 0 <= j < k ==> table[j].0 != key)
  {
    if |table| == 0 then None
    else if table[0].0 == key then Some(table[0].1)
    else
      var r := Lookup(table[1..], key);
      assert forall k :: 0 < k < |table| ==> table[k] == table[1..][k - 1];
      r
  }

  /** The fallback for an id not in the table: hyphens become spaces, then `str.title()`. */
  function FallbackDescription(id: String): String {
    Title(ReplaceChar(id, '-', ' '))
  }

  /** `_get_description` */
  function GetDescription(id: String): (r: String)
    ensures (exists k :: 0 <= k < |Descriptions()| && Descriptions()[k].0 == id) ==> r == Lookup(Descriptions(), id).value
    ensures (forall k :: 0 <= k < |Descriptions()| ==> Descriptions()[k].0 != id) ==> r == FallbackDescription(id)
  {
    Lookup(Descriptions(), id).GetOr(FallbackDescription(id))
  }

  /**
   * The fallback spells the id with its hyphens as spaces, letter for letter up
   * to case, and keeps every non-letter other than a hyphen.
   */
  lemma FallbackSpellsId(id: String)
    ensures |FallbackDescription(id)| == |id|
    ensures forall i :: 0 <= i < |id| ==> LowerChar(FallbackDescription(id)[i]) == LowerChar(if id[i] == '-' then ' ' else id[i])
    ensures forall i :: 0 <= i < |id| && !IsLetter(id[i]) ==> FallbackDescription(id)[i] == (if id[i] == '-' then ' ' else id[i])
  {
  }

  /** A table id gets its table text. */
  lemma KnownDescriptions()
    ensures GetDescription("missing-readme") == "Missing README.md"
    ensures GetDescription("missing-gitignore") == "Missing .gitignore"
  {
    assert Descriptions()[3].0 == "missing-readme";
    assert Descriptions()[0].0 == "missing-gitignore";
    assert forall j :: 0 <= j < 3 ==> |Descriptions()[j].0| != |"missing-readme"|;
  }

  // ---------------------------------------------------------------------------
  // Category status

  /** One issue line of `_format_issue`: the severity icon, description, labels, and the template command if any. */
  datatype IssueLine = IssueLine(icon: Icon, description: String, confidence: String, severity: String, action: Option<Recommendation>)

  /** `high` is an error, `medium` a warning, anything else information. */
  function SeverityIcon(severity: String): Icon {
    if severity == "high" then Error else if severity == "medium" then Warning else Info
  }

  /** `_format_issue` */
  function FormatIssue(d: Detection): (line: IssueLine)
    ensures line.description == GetDescription(d.id)
    ensures line.confidence == d.confidence && line.severity == d.severity && line.action == d.recommendation
    ensures line.icon == Error <==> d.severity == "high"
    ensures line.icon == Warning <==> d.severity == "medium"
    ensures line.icon in {Error, Warning, Info}
  {
    IssueLine(SeverityIcon(d.severity), GetDescription(d.id), d.confidence, d.severity, d.recommendation)
  }

  /** The detections filed under `c`, in order. */
  function InCategory(ds: seq<Detection>, c: Category): (r: seq<Detection>)
    ensures |r| <= |ds|
    ensures forall d :: d in r <==> d in ds && GetCategory(d.id) == c
  {
    if |ds| == 0 then []
    else (if GetCategory(ds[0].id) == c then [ds[0]] else []) + InCategory(ds[1..], c)
  }

  /** The issue lines of a category: one per issue-found detection, in order. */
  function IssueLines(ds: seq<Detection>): (r: seq<IssueLine>)
    ensures |r| <= |ds|
    ensures forall line :: line in r ==> exists d :: d in ds && d.issueFound && line == FormatIssue(d)
    ensures forall d :: d in ds && d.issueFound ==> FormatIssue(d) in r
  {
    if |ds| == 0 then []
    else (if ds[0].issueFound then [FormatIssue(ds[0])] else []) + IssueLines(ds[1..])
  }

  /** One step of filing: the head if it belongs to the category, then the filing of the rest. */
  lemma InCategoryStep(ds: seq<Detection>, c: Category)
    requires |ds| > 0
    ensures InCategory(ds, c) == (if GetCategory(ds[0].id) == c then [ds[0]] else []) + InCategory(ds[1..], c)
  {
  }

  /** Filing keeps detection order: filing distributes over concatenation. */
  lemma {:induction false} InCategoryAppend(a: seq<Detection>, b: seq<Detection>, c: Category)
    ensures InCategory(a + b, c) == InCategory(a, c) + InCategory(b, c)
    decreases |a|
  {
    if |a| == 0 {
      assert a + b == b;
    } else {
      var h := if GetCategory(a[0].id) == c then [a[0]] else [];
      var p, q := InCategory(a[1..], c), InCategory(b, c);
      assert InCategory(a + b, c) == h + InCategory(a[1..] + b, c) by {
        assert (a + b)[0] == a[0] && (a + b)[1..] == a[1..] + b;
        InCategoryStep(a + b, c);
      }
      assert InCategory(a, c) == h + p by {
        InCategoryStep(a, c);
      }
      InCategoryAppend(a[1..], b, c);
      ConcatAssoc(h, p, q);
    }
  }

  /** One step of formatting: the head's line if it reports an issue, then the rest. */
  lemma IssueLinesStep(ds: seq<Detection>)
    requires |ds| > 0
    ensures IssueLines(ds) == (if ds[0].issueFound then [FormatIssue(ds[0])] else []) + IssueLines(ds[1..])
  {
  }

  /** Issue lines come out in detection order: formatting distributes over concatenation. */
  lemma {:induction false} IssueLinesAppend(a: seq<Detection>, b: seq<Detection>)
    ensures IssueLines(a + b) == IssueLines(a) + IssueLines(b)
    decreases |a|
  {
    if |a| == 0 {
      assert a + b == b;
    } else {
      IssueLinesAppend(a[1..], b);
      IssueLinesConsAppend(a, b);
    }
  }

  /** The inductive step of `IssueLinesAppend`: the head's line joins the front. */
  lemma IssueLinesConsAppend(a: seq<Detection>, b: seq<Detection>)
    requires |a| > 0 && IssueLines(a[1..] + b) == IssueLines(a[1..]) + IssueLines(b)
    ensures IssueLines(a + b) == IssueLines(a) + IssueLines(b)
  {
    var h := if a[0].issueFound then [FormatIssue(a[0])] else [];
    var p, q := IssueLines(a[1..]), IssueLines(b);
    assert IssueLines(a + b) == h + (p + q) by {
      assert (a + b)[0] == a[0] && (a + b)[1..] == a[1..] + b;
      IssueLinesStep(a + b);
    }
    assert IssueLines(a) == h + p by {
      IssueLinesStep(a);
    }
    ConcatAssoc(h, p, q);
  }

  function HasIssue(ds: seq<Detection>): bool {
    if |ds| == 0 then false else ds[0].issueFound || HasIssue(ds[1..])
  }

  function HasHighIssue(ds: seq<Detection>): bool {
    if |ds| == 0 then false else (ds[0].issueFound && ds[0].severity == "high") || HasHighIssue(ds[1..])
  }

  /** The category icon: ok with no issues, error with a high-severity issue, a warning otherwise. */
  function StatusIcon(ds: seq<Detection>): Icon {
    if !HasIssue(ds) then Ok else if HasHighIssue(ds) then Error else Warning
  }

  lemma {:induction false} HasIssueIff(ds: seq<Detection>)
    ensures HasIssue(ds) <==> exists d :: d in ds && d.issueFound
    ensures HasHighIssue(ds) <==> exists d :: d in ds && d.issueFound && d.severity == "high"
  {
    if |ds| > 0 {
      HasIssueIff(ds[1..]);
      assert forall d :: d in ds <==> d == ds[0] || d in ds[1..];
    }
  }

  /** The icon is ok iff nothing was found, error iff a high-severity issue was found, and a warning otherwise. */
  lemma StatusIconIff(ds: seq<Detection>)
    ensures StatusIcon(ds) == Ok <==> forall d :: d in ds ==> !d.issueFound
    ensures StatusIcon(ds) == Error <==> exists d :: d in ds && d.issueFound && d.severity == "high"
    ensures StatusIcon(ds) == Warning <==>
      (exists d :: d in ds && d.issueFound) && forall d :: d in ds && d.issueFound ==> d.severity != "high"
  {
    HasIssueIff(ds);
  }

  /** One category's block: its name with the status icon, then its issue lines. */
  datatype CategoryBlock = CategoryBlock(category: Category, icon: Icon, issues: seq<IssueLine>)

  function BlockOf(ds: seq<Detection>, c: Category): CategoryBlock {
    var mine := InCategory(ds, c);
    CategoryBlock(c, StatusIcon(mine), IssueLines(mine))
  }

  /** The blocks for the categories `cs` that have at least one detection, in the order of `cs`. */
  function BlocksFor(cs: seq<Category>, ds: seq<Detection>): (r: seq<CategoryBlock>)
    ensures |r| <= |cs|
    ensures forall b :: b in r ==> b.category in cs && b == BlockOf(ds, b.category) && |InCategory(ds, b.category)| > 0
  {
    if |cs| == 0 then []
    else (if |InCategory(ds, cs[0])| > 0 then [BlockOf(ds, cs[0])] else []) + BlocksFor(cs[1..], ds)
  }

  /** Every category of `cs` with a detection gets a block. */
  lemma {:induction false} BlocksForCovers(cs: seq<Category>, ds: seq<Detection>, c: Category)
    requires c in cs && |InCategory(ds, c)| > 0
    ensures BlockOf(ds, c) in BlocksFor(cs, ds)
  {
    if cs[0] != c {
      BlocksForCovers(cs[1..], ds, c);
    }
  }

  /** `_generate_category_status` */
  function CategoryStatus(ds: seq<Detection>): seq<CategoryBlock> {
    BlocksFor(ReportedCategories(), ds)
  }

  /** The blocks appear in strictly increasing category rank. */
  lemma {:induction false} BlocksOrdered(cs: seq<Category>, ds: seq<Detection>)
    requires forall i, j :: 0 <= i < j < |cs| ==> CategoryRank(cs[i]) < CategoryRank(cs[j])
    ensures forall i, j :: 0 <= i < j < |BlocksFor(cs, ds)| ==>
      CategoryRank(BlocksFor(cs, ds)[i].category) < CategoryRank(BlocksFor(cs, ds)[j].category)
  {
    if |cs| > 0 {
      BlocksOrdered(cs[1..], ds);
      var rest := BlocksFor(cs[1..], ds);
      forall b | b in rest ensures CategoryRank(cs[0]) < CategoryRank(b.category) {
        var k :| 0 <= k < |cs[1..]| && cs[1..][k] == b.category;
        assert cs[k + 1] == b.category;
      }
    }
  }

  /**
   * The category section: detections filed under `Other` never appear, and
   * the blocks come at most once each in the fixed order, with the icon and
   * issue lines of their own detections.
   */
  lemma CategoryStatusShape(ds: seq<Detection>)
    ensures forall b :: b in CategoryStatus(ds) ==> b.category != Other && b == BlockOf(ds, b.category)
    ensures forall i, j :: 0 <= i < j < |CategoryStatus(ds)| ==>
      CategoryRank(CategoryStatus(ds)[i].category) < CategoryRank(CategoryStatus(ds)[j].category)
  {
    BlocksOrdered(ReportedCategories(), ds);
  }

  /** A category has a block iff it is not `Other` and some detection is filed under it. */
  lemma CategoryAppearsIff(ds: seq<Detection>, c: Category)
    ensures (c != Other && exists d :: d in ds && GetCategory(d.id) == c) <==>
      exists b :: b in CategoryStatus(ds) && b.category == c
  {
    ReportedCategoriesRanked(c);
    if c != Other && exists d :: d in ds && GetCategory(d.id) == c {
      var d :| d in ds && GetCategory(d.id) == c;
      assert d in InCategory(ds, c);
      assert c in ReportedCategories() && |InCategory(ds, c)| > 0;
      BlocksForCovers(ReportedCategories(), ds, c);
      assert BlockOf(ds, c) in CategoryStatus(ds);
    }
    if exists b :: b in CategoryStatus(ds) && b.category == c {
      var b :| b in CategoryStatus(ds) && b.category == c;
      assert c in ReportedCategories();
      FiledDetection(ds, c);
    }
  }

  lemma FiledDetection(ds: seq<Detection>, c: Category)
    requires |InCategory(ds, c)| > 0
    ensures exists d :: d in ds && GetCategory(d.id) == c
  {
    var d := InCategory(ds, c)[0];
    assert d in InCategory(ds, c);
  }

  // ---------------------------------------------------------------------------
  // Priority actions

  /** One numbered action: description, severity and template of a recommendation. */
  datatype ActionLine = ActionLine(number: nat, description: String, severity: String, template: String)

  /** `_generate_priority_actions`: the "no priority actions" line, or the numbered list. */
  datatype Actions = NoPriorityActions | PriorityActions(lines: seq<ActionLine>)

  function ActionLines(recs: seq<RankedRecommendation>, first: nat): (r: seq<ActionLine>)
    ensures |r| == |recs|
    ensures forall i :: 0 <= i < |recs| ==>
      r[i] == ActionLine(first + i, GetDescription(recs[i].id), recs[i].severity, recs[i].template)
  {
    if |recs| == 0 then [] else [ActionLine(first, GetDescription(recs[0].id), recs[0].severity, recs[0].template)] + ActionLines(recs[1..], first + 1)
  }

  function Min(a: int, b: int): int {
    if a <= b then a else b
  }

  /** The numbered list covers the first five recommendations at most, in the given order. */
  function PriorityActionsOf(recs: seq<RankedRecommendation>): (r: Actions)
    ensures r.NoPriorityActions? <==> |recs| == 0
    ensures r.PriorityActions? ==> |r.lines| == Min(5, |recs|) && 0 < |r.lines| <= 5
    ensures r.PriorityActions? ==> forall i :: 0 <= i < |r.lines| ==>
      r.lines[i].number == i + 1 && r.lines[i].description == GetDescription(recs[i].id) &&
      r.lines[i].severity == recs[i].severity && r.lines[i].template == recs[i].template
  {
    if |recs| == 0 then NoPriorityActions else PriorityActions(ActionLines(recs[..Min(5, |recs|)], 1))
  }

  // ---------------------------------------------------------------------------
  // Health

  /** `format(x, '.0f')`: the nearest integer, a tie going to the even one. */
  function RoundHalfEven(x: real): (n: int)
    ensures x - 0.5 <= n as real <= x + 0.5
    ensures (n as real == x - 0.5 || n as real == x + 0.5) ==> n % 2 == 0
  {
    var f := x.Floor;
    var d := x - f as real;
    if d < 0.5 then f else if d > 0.5 then f + 1 else if f % 2 == 0 then f else f + 1
  }

  /** At most one integer satisfies the rounding contract, so it defines the rounding. */
  lemma RoundHalfEvenUnique(x: real, n: int)
    requires x - 0.5 <= n as real <= x + 0.5
    requires (n as real == x - 0.5 || n as real == x + 0.5) ==> n % 2 == 0
    ensures n == RoundHalfEven(x)
  {
    var m := RoundHalfEven(x);
    assert n - 1 <= m <= n + 1;
  }

  /** Unlike the stored score, the displayed one rounds: 89.5 shows as 90 while the stored score is 89. */
  lemma RoundingDiffersFromTruncation()
    ensures RoundHalfEven(89.5 as real) == 90 && (89.5 as real).Floor == 89
    ensures RoundHalfEven(88.5 as real) == 88
  {
  }

  datatype Rating = Excellent | Good | Fair | NeedsImprovement

  /** The rating from the unrounded score. */
  function RatingOf(score: real): Rating {
    if score >= 90.0 then Excellent else if score >= 75.0 then Good else if score >= 50.0 then Fair else NeedsImprovement
  }

  /** `Excellent` is 3, `Needs Improvement` is 0. */
  function RatingRank(r: Rating): nat {
    match r
    case Excellent => 3
    case Good => 2
    case Fair => 1
    case NeedsImprovement => 0
  }

  /** A higher score never gets a lower rating. */
  lemma RatingMonotone(a: real, b: real)
    requires a <= b
    ensures RatingRank(RatingOf(a)) <= RatingRank(RatingOf(b))
  {
  }

  /** The rating's icon: rocket, ok, warning, error. */
  function RatingIcon(r: Rating): Icon {
    match r
    case Excellent => Rocket
    case Good => Ok
    case Fair => Warning
    case NeedsImprovement => Error
  }

  // ---------------------------------------------------------------------------
  // The report

  /** What the report reads from the detector's results; a missing key is `None` or an empty list. */
  datatype ReportInput = ReportInput(
    projectName: Option<String>,
    projectTypes: seq<String>,
    frameworks: seq<String>,
    detections: seq<Detection>,
    recommendations: seq<RankedRecommendation>,
    summary: SummaryFields)

  datatype Section =
    | Header
    | ProjectInfo(project: String, typeLabel: String, frameworks: Option<String>, patternsChecked: int, issuesFound: int)
    | CategorySection(blocks: seq<CategoryBlock>)
    | ActionSection(actions: Actions)
    | HealthSection(icon: Icon, shown: int, rating: Rating)

  /** The two strings spell the same text up to letter case. */
  predicate SameUpToCase(a: String, b: String) {
    |a| == |b| && forall i :: 0 <= i < |a| ==> LowerChar(a[i]) == LowerChar(b[i])
  }

  /** `_generate_project_info`: defaults `Unknown Project`, `Unknown` and 0; frameworks only when there are any. */
  function ProjectInfoOf(input: ReportInput): (s: Section)
    ensures s.ProjectInfo?
    ensures s.project == input.projectName.GetOr("Unknown Project")
    ensures |input.projectTypes| == 0 ==> s.typeLabel == "Unknown"
    ensures |input.projectTypes| > 0 ==> SameUpToCase(s.typeLabel, JoinWith(", ", input.projectTypes))
    ensures |input.projectTypes| > 0 ==> s.typeLabel == Title(JoinWith(", ", input.projectTypes))
    ensures s.frameworks.None? <==> |input.frameworks| == 0
    ensures |input.frameworks| > 0 ==> s.frameworks == Some(Title(JoinWith(", ", input.frameworks)))
    ensures s.patternsChecked == input.summary.totalPatterns.GetOr(0) && s.issuesFound == input.summary.issuesFound.GetOr(0)
  {
    var typeLabel := if |input.projectTypes| > 0 then Title(JoinWith(", ", input.projectTypes)) else "Unknown";
    ProjectInfo(
      input.projectName.GetOr("Unknown Project"),
      typeLabel,
      if |input.frameworks| > 0 then Some(Title(JoinWith(", ", input.frameworks))) else None,
      input.summary.totalPatterns.GetOr(0),
      input.summary.issuesFound.GetOr(0))
  }

  /** `_generate_health_score`: the clamped score, shown rounded, rated from its unrounded value. */
  function HealthSectionOf(s: SummaryFields): (r: Result<Section, HealthError>)
    ensures r.Failure? <==> s.totalPatterns == Some(0)
    ensures r.Success? ==> r.value.HealthSection? && r.value.shown >= 0
    ensures r.Success? ==> r.value.rating == RatingOf(ClampedScore(s).value) && r.value.icon == RatingIcon(r.value.rating)
    ensures r.Success? ==> RoundHalfEven(ClampedScore(s).value) == r.value.shown
  {
    match ClampedScore(s)
    case Failure(e) => Failure(e)
    case Success(h) =>
      var rating := RatingOf(h);
      Success(HealthSection(RatingIcon(rating), RoundHalfEven(h), rating))
  }

  /** The test summary (20 patterns, 3 issues, 1 high, 1 medium) shows 55 and rates Fair. */
  lemma HealthSectionExample()
    ensures HealthSectionOf(SummaryFields(Some(20), Some(3), Some(1), Some(1))) == Success(HealthSection(Warning, 55, Fair))
  {
    assert ClampedScore(SummaryFields(Some(20), Some(3), Some(1), Some(1))).value == 55.0;
    RoundHalfEvenUnique(55.0, 55);
  }

  /**
   * `generate_report`: header, project info, category status, priority
   * actions and health, in that order; the only failure is the health
   * section's division by a present zero `total_patterns`.
   */
  function GenerateReport(input: ReportInput): (r: Result<seq<Section>, HealthError>)
    ensures r.Failure? <==> input.summary.totalPatterns == Some(0)
    ensures r.Success? ==> (|r.value| == 5 && r.value[0].Header? && r.value[1].ProjectInfo? &&
      r.value[2].CategorySection? && r.value[3].ActionSection? && r.value[4].HealthSection?)
    ensures r.Success? ==> r.value[1] == ProjectInfoOf(input)
    ensures r.Success? ==> r.value[2].blocks == CategoryStatus(input.detections)
    ensures r.Success? ==> r.value[3].actions == PriorityActionsOf(input.recommendations)
    ensures r.Success? ==> Success(r.value[4]) == HealthSectionOf(input.summary)
  {
    match HealthSectionOf(input.summary)
    case Failure(e) => Failure(e)
    case Success(health) =>
      Success([Header, ProjectInfoOf(input), CategorySection(CategoryStatus(input.detections)),
        ActionSection(PriorityActionsOf(input.recommendations)), health])
  }
}
