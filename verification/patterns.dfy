/**
 * The rule evaluation engine of `detect-patterns.py`: each configured pattern
 * is applied to the project's file and directory paths, the issue-found
 * detections are counted per severity, and their recommendations are ranked by
 * a confidence-weighted priority score.
 */
module Patterns {
  import opened Wrappers
  import opened Text
  import opened Ranking

  // ---------------------------------------------------------------------------
  // Configuration

  /** The `check` field: absent, one path, or a list of candidate paths. */
  datatype Check = NoCheck | Path(path: String) | Paths(paths: seq<String>)

  /** One entry of `recommendation.variants`; a missing `condition` is the empty string. */
  datatype Variant = Variant(condition: String, template: String)

  /** The `recommendation` block of a pattern; no `variants` key is the empty list. */
  datatype Recommendation = Recommendation(template: String, reason: String, variants: seq<Variant>)

  /**
   * One configured pattern. `kind` is the `type` string, `appliesWhen` is the
   * empty string when the key is absent, and a missing `confidence` or
   * `severity` is `None`.
   */
  datatype Pattern = Pattern(
    id: String,
    kind: String,
    check: Check,
    confidence: Option<String>,
    severity: Option<String>,
    appliesWhen: String,
    recommendation: Option<Recommendation>)

  /** The part of the project structure the detector reads. */
  datatype Snapshot = Snapshot(
    projectName: String,
    projectTypes: seq<String>,
    frameworks: seq<String>,
    files: seq<String>,
    dirs: seq<String>)

  // ---------------------------------------------------------------------------
  // Conditions and variants

  /**
   * `_check_condition`: ordered substring tests on the condition text, each
   * deciding by a membership test on the files; any other text holds.
   */
  function CheckCondition(condition: String, files: seq<String>): bool {
    if Contains(condition, "package.json exists") then "package.json" in files
    else if Contains(condition, "requirements.txt") || Contains(condition, "setup.py exists") then
      "requirements.txt" in files || "setup.py" in files
    else if Contains(condition, "pom.xml") || Contains(condition, "build.gradle exists") then
      exists f :: f in files && (Contains(f, "pom.xml") || Contains(f, "build.gradle"))
    else true
  }

  /** The condition text names one of the recognised project markers. */
  predicate Recognised(condition: String) {
    Contains(condition, "package.json exists") || Contains(condition, "requirements.txt") ||
    Contains(condition, "setup.py exists") || Contains(condition, "pom.xml") ||
    Contains(condition, "build.gradle exists")
  }

  /** A condition that names no marker, the empty one included, always holds. */
  lemma UnrecognisedConditionHolds(condition: String, files: seq<String>)
    ensures !Recognised(condition) ==> CheckCondition(condition, files)
    ensures !Recognised("")
  {
  }

  /**
   * `_select_variant`: the first variant whose condition holds, or `None` when
   * no condition holds.
   */
  function SelectVariant(variants: seq<Variant>, files: seq<String>): (r: Option<Variant>)
    ensures r.None? <==> forall i :: 0 <= i < |variants| ==> !CheckCondition(variants[i].condition, files)
    ensures r.Some? ==> exists i :: (0 <= i < |variants| && variants[i] == r.value &&
      CheckCondition(variants[i].condition, files) &&
      forall j :: 0 <= j < i ==> !CheckCondition(variants[j].condition, files))
  {
    if |variants| == 0 then None
    else if CheckCondition(variants[0].condition, files) then Some(variants[0])
    else
      var r := SelectVariant(variants[1..], files);
      assert forall i :: 0 < i < |variants| ==> variants[i] == variants[1..][i - 1];
      r
  }

  /** The recommendation a detection carries: its template replaced by the selected variant's, if any. */
  function ResolveRecommendation(rec: Recommendation, files: seq<String>): (r: Recommendation)
    ensures r.reason == rec.reason && r.variants == rec.variants
    ensures SelectVariant(rec.variants, files).None? ==> r == rec
    ensures SelectVariant(rec.variants, files).Some? ==> r.template == SelectVariant(rec.variants, files).value.template
  {
    match SelectVariant(rec.variants, files)
    case Some(v) => rec.(template := v.template)
    case None => rec
  }

  // ---------------------------------------------------------------------------
  // The checks

  /** `_check_file_absence(check, files)` for a string `check`. */
  predicate FileAbsent(check: String, files: seq<String>) {
    check !in files && !(exists f :: f in files && EndsWith(f, check))
  }

  /** A file is absent iff no recorded file ends with it; an exact match is the special case. */
  lemma FileAbsentIff(check: String, files: seq<String>)
    ensures FileAbsent(check, files) <==> forall f :: f in files ==> !EndsWith(f, check)
  {
    if check in files {
      assert EndsWith(check, check);
    }
  }

  predicate IsYaml(path: String) {
    EndsWith(path, ".yml") || EndsWith(path, ".yaml")
  }

  /** Some recorded directory starts with `path`. */
  predicate DirFound(path: String, dirs: seq<String>) {
    exists d :: d in dirs && StartsWith(d, path)
  }

  /**
   * The loop of `_check_directory_absence` over the candidates: absent at the
   * first `.yml`/`.yaml` candidate, present at the first other candidate that
   * starts some directory, absent once the candidates are exhausted.
   */
  function DirectoryAbsent(candidates: seq<String>, dirs: seq<String>): bool {
    if |candidates| == 0 then true
    else if IsYaml(candidates[0]) then true
    else if DirFound(candidates[0], dirs) then false
    else DirectoryAbsent(candidates[1..], dirs)
  }

  /**
   * A directory check reports presence iff some candidate before the first
   * `.yml`/`.yaml` one starts a directory.
   */
  lemma {:induction false} DirectoryPresentIff(candidates: seq<String>, dirs: seq<String>)
    ensures !DirectoryAbsent(candidates, dirs) <==>
      exists k :: 0 <= k < |candidates| && DirFound(candidates[k], dirs) &&
        forall j :: 0 <= j <= k ==> !IsYaml(candidates[j])
  {
    if |candidates| > 0 && !IsYaml(candidates[0]) && !DirFound(candidates[0], dirs) {
      DirectoryPresentIff(candidates[1..], dirs);
      assert forall j :: 0 < j < |candidates| ==> candidates[j] == candidates[1..][j - 1];
    } else if |candidates| > 0 && !IsYaml(candidates[0]) {
      assert DirFound(candidates[0], dirs);
    }
  }

  /** Without `.yml`/`.yaml` candidates the check is "none of the candidates is present". */
  lemma DirectoryAbsentWithoutYaml(candidates: seq<String>, dirs: seq<String>)
    requires forall j :: 0 <= j < |candidates| ==> !IsYaml(candidates[j])
    ensures DirectoryAbsent(candidates, dirs) <==> forall k :: 0 <= k < |candidates| ==> !DirFound(candidates[k], dirs)
  {
    DirectoryPresentIff(candidates, dirs);
  }

  /** A `.yml`/`.yaml` candidate reached before any found directory makes the check report absence. */
  lemma {:induction false} YamlCandidateReportsAbsence(candidates: seq<String>, dirs: seq<String>, k: int)
    requires 0 <= k < |candidates| && IsYaml(candidates[k])
    requires forall j :: 0 <= j < k ==> !DirFound(candidates[j], dirs)
    ensures DirectoryAbsent(candidates, dirs)
  {
    if k > 0 && !IsYaml(candidates[0]) {
      YamlCandidateReportsAbsence(candidates[1..], dirs, k - 1);
    }
  }

  /** The test project without CI: `.github/workflows` is missing, so `.gitlab-ci.yml` ends the loop. */
  lemma MissingCiExample()
    ensures DirectoryAbsent([".github/workflows", ".gitlab-ci.yml"], ["src", "tests"])
  {
    var c := [".github/workflows", ".gitlab-ci.yml"];
    assert c[0][|c[0]| - 4..] == "lows" && c[0][|c[0]| - 5..] == "flows";
    assert !StartsWith("src", c[0]) && !StartsWith("tests", c[0]);
    assert c[1][|c[1]| - 4..] == ".yml";
    YamlCandidateReportsAbsence(c, ["src", "tests"], 1);
  }

  /** What applying a check produced: an issue flag, or the `TypeError` the check raised. */
  datatype CheckOutcome = Issue(found: bool) | Raises

  /**
   * The dispatch on `type` in `_apply_pattern`. A `file_absence` check on a list
   * raises (a list is unhashable, so the membership test on the file set fails),
   * and so does one on a missing check once there is a file to call `endswith`
   * on; a missing `directory_absence` check raises when iterated. A
   * `file_quality` check never reports an issue, and an unknown type leaves the
   * flag false.
   */
  function CheckIssue(p: Pattern, files: seq<String>, dirs: seq<String>): CheckOutcome {
    if p.kind == "file_absence" then
      match p.check
      case Path(c) => Issue(FileAbsent(c, files))
      case Paths(_) => Raises
      case NoCheck => if |files| == 0 then Issue(true) else Raises
    else if p.kind == "directory_absence" then
      match p.check
      case Path(c) => Issue(DirectoryAbsent([c], dirs))
      case Paths(cs) => Issue(DirectoryAbsent(cs, dirs))
      case NoCheck => Raises
    else Issue(false)
  }

  /** Only the two absence checks can report an issue, and only the absence checks can raise. */
  lemma OnlyAbsenceChecksReport(p: Pattern, files: seq<String>, dirs: seq<String>)
    ensures p.kind != "file_absence" && p.kind != "directory_absence" ==> CheckIssue(p, files, dirs) == Issue(false)
    ensures p.kind == "file_quality" ==> CheckIssue(p, files, dirs) == Issue(false)
    ensures p.kind == "file_absence" && p.check.Path? ==>
      (CheckIssue(p, files, dirs) == Issue(true) <==> forall f :: f in files ==> !EndsWith(f, p.check.path))
  {
    if p.kind == "file_absence" && p.check.Path? {
      FileAbsentIff(p.check.path, files);
    }
  }

  // ---------------------------------------------------------------------------
  // Detections

  /** One entry of `results['detections']`; a recommendation only accompanies an issue. */
  datatype Detection = Detection(
    id: String,
    kind: String,
    confidence: String,
    severity: String,
    issueFound: bool,
    recommendation: Option<Recommendation>)

  /** `if applies_when: if not _check_condition(...): return None` */
  predicate Applies(p: Pattern, files: seq<String>) {
    p.appliesWhen == "" || CheckCondition(p.appliesWhen, files)
  }

  /** `_apply_pattern` for a pattern that applies and does not raise. */
  function Evaluate(p: Pattern, files: seq<String>, dirs: seq<String>): (d: Detection)
    ensures d.id == p.id && d.kind == p.kind
    ensures d.confidence == p.confidence.GetOr("medium") && d.severity == p.severity.GetOr("medium")
    ensures d.issueFound <==> CheckIssue(p, files, dirs) == Issue(true)
    ensures d.recommendation.Some? <==> d.issueFound && p.recommendation.Some?
    ensures d.recommendation.Some? ==> d.recommendation.value == ResolveRecommendation(p.recommendation.value, files)
  {
    var issue := CheckIssue(p, files, dirs) == Issue(true);
    Detection(
      p.id, p.kind, p.confidence.GetOr("medium"), p.severity.GetOr("medium"), issue,
      if issue && p.recommendation.Some? then Some(ResolveRecommendation(p.recommendation.value, files)) else None)
  }

  /** The patterns that pass their `applies_when` test, in configuration order. */
  function ApplicablePatterns(ps: seq<Pattern>, files: seq<String>): (r: seq<Pattern>)
    ensures |r| <= |ps|
    ensures forall p :: p in r ==> p in ps && Applies(p, files)
    ensures forall p :: p in ps && Applies(p, files) ==> p in r
  {
    if |ps| == 0 then []
    else (if Applies(ps[0], files) then [ps[0]] else []) + ApplicablePatterns(ps[1..], files)
  }

  /** The detections of the loop in `detect`: one per applicable pattern, in order. */
  function DetectionsOf(ps: seq<Pattern>, files: seq<String>, dirs: seq<String>): seq<Detection> {
    if |ps| == 0 then []
    else (if Applies(ps[0], files) then [Evaluate(ps[0], files, dirs)] else []) + DetectionsOf(ps[1..], files, dirs)
  }

  /** An applicable pattern whose check raises `TypeError` aborts `detect`. */
  predicate RaisesAt(ps: seq<Pattern>, i: int, files: seq<String>, dirs: seq<String>)
    requires 0 <= i < |ps|
  {
    Applies(ps[i], files) && CheckIssue(ps[i], files, dirs).Raises?
  }

  /**
   * The detections are the evaluations of the applicable patterns, one each and
   * in configuration order; a pattern whose `applies_when` fails leaves nothing.
   */
  lemma {:induction false} DetectionsAreApplicableEvaluations(ps: seq<Pattern>, files: seq<String>, dirs: seq<String>)
    ensures |DetectionsOf(ps, files, dirs)| == |ApplicablePatterns(ps, files)| <= |ps|
    ensures forall i :: 0 <= i < |DetectionsOf(ps, files, dirs)| ==>
      DetectionsOf(ps, files, dirs)[i] == Evaluate(ApplicablePatterns(ps, files)[i], files, dirs)
  {
    if |ps| > 0 {
      DetectionsAreApplicableEvaluations(ps[1..], files, dirs);
    }
  }

  /** Inserting a pattern that does not apply anywhere in the list leaves the detections unchanged. */
  lemma {:induction false} InapplicablePatternIsInvisible(before: seq<Pattern>, p: Pattern, after: seq<Pattern>, files: seq<String>, dirs: seq<String>)
    requires !Applies(p, files)
    ensures DetectionsOf(before + [p] + after, files, dirs) == DetectionsOf(before + after, files, dirs)
    decreases |before|
  {
    var s, t := before + [p] + after, before + after;
    if |before| == 0 {
      assert s[0] == p && s[1..] == after && t == after;
    } else {
      InapplicablePatternIsInvisible(before[1..], p, after, files, dirs);
      assert s[0] == t[0] && s[1..] == before[1..] + [p] + after && t[1..] == before[1..] + after;
    }
  }

  /** The `applies_when` filter distributes over concatenation, so it keeps the configuration order. */
  lemma {:induction false} ApplicablePatternsAppend(a: seq<Pattern>, b: seq<Pattern>, files: seq<String>)
    ensures ApplicablePatterns(a + b, files) == ApplicablePatterns(a, files) + ApplicablePatterns(b, files)
    decreases |a|
  {
    if |a| == 0 {
      assert a + b == b;
    } else {
      var h := if Applies(a[0], files) then [a[0]] else [];
      var p, q := ApplicablePatterns(a[1..], files), ApplicablePatterns(b, files);
      assert ApplicablePatterns(a + b, files) == h + ApplicablePatterns(a[1..] + b, files) by {
        assert (a + b)[0] == a[0] && (a + b)[1..] == a[1..] + b;
      }
      ApplicablePatternsAppend(a[1..], b, files);
      ConcatAssoc(h, p, q);
    }
  }

  // ---------------------------------------------------------------------------
  // Counting

  /** `results['summary']` */
  datatype Summary = Summary(totalPatterns: nat, issuesFound: nat, highSeverity: nat, mediumSeverity: nat, lowSeverity: nat)

  function CountIssues(ds: seq<Detection>): nat {
    if |ds| == 0 then 0 else (if ds[0].issueFound then 1 else 0) + CountIssues(ds[1..])
  }

  /** The number of issue-found detections whose severity label is `lbl`. */
  function CountSeverity(ds: seq<Detection>, lbl: String): nat {
    if |ds| == 0 then 0
    else (if ds[0].issueFound && ds[0].severity == lbl then 1 else 0) + CountSeverity(ds[1..], lbl)
  }

  /**
   * The per-severity counts never exceed the issue count (labels other than
   * high, medium and low are counted nowhere), which never exceeds the number of
   * detections.
   */
  lemma {:induction false} SeverityCountsBounded(ds: seq<Detection>)
    ensures CountSeverity(ds, "high") + CountSeverity(ds, "medium") + CountSeverity(ds, "low") <= CountIssues(ds) <= |ds|
  {
    if |ds| > 0 {
      SeverityCountsBounded(ds[1..]);
    }
  }

  // ---------------------------------------------------------------------------
  // Priority

  /** `confidence_map`, with `0.7` for unknown labels. */
  function ConfidenceWeight(lbl: String): real {
    if lbl == "high" then 1.0 else if lbl == "medium" then 0.7 else if lbl == "low" then 0.4 else 0.7
  }

  /** `severity_map`, with `5` for unknown labels. */
  function SeverityBase(lbl: String): real {
    if lbl == "high" then 10.0 else if lbl == "medium" then 5.0 else if lbl == "low" then 2.0 else 5.0
  }

  /** `multiplier_map`, with `0.6` for unknown labels. */
  function SeverityMultiplier(lbl: String): real {
    if lbl == "high" then 1.0 else if lbl == "medium" then 0.6 else if lbl == "low" then 0.3 else 0.6
  }

  /** `_calculate_priority`: confidence weight times severity multiplier times severity base. */
  function Priority(confidence: String, severity: String): (score: real)
    ensures 0.0 < score <= 10.0
    ensures score == 10.0 <==> confidence == "high" && severity == "high"
  {
    ConfidenceWeight(confidence) * SeverityMultiplier(severity) * SeverityBase(severity)
  }

  /** The values the tests pin down, and the medium defaults for unknown labels. */
  lemma PriorityValues(c: String, s: String)
    ensures Priority("high", "high") == 10.0
    ensures Priority("medium", "medium") == 2.1
    ensures c != "high" && c != "medium" && c != "low" ==> Priority(c, s) == Priority("medium", s)
    ensures s != "high" && s != "medium" && s != "low" ==> Priority(c, s) == Priority(c, "medium")
  {
  }

  /** A higher severity label never lowers the score, whatever the confidence. */
  lemma PriorityMonotoneInSeverity(c: String)
    ensures Priority(c, "low") < Priority(c, "medium") < Priority(c, "high")
  {
  }

  // ---------------------------------------------------------------------------
  // Recommendations

  /** One entry of `results['recommendations']`. */
  datatype RankedRecommendation = RankedRecommendation(
    id: String,
    template: String,
    reason: String,
    severity: String,
    confidence: String,
    priorityScore: real)

  /** The entry appended for a detection that carries a recommendation. */
  function EntryOf(d: Detection): RankedRecommendation
    requires d.recommendation.Some?
  {
    RankedRecommendation(
      d.id, d.recommendation.value.template, d.recommendation.value.reason,
      d.severity, d.confidence, Priority(d.confidence, d.severity))
  }

  function Score(r: RankedRecommendation): real {
    r.priorityScore
  }

  /** The number of detections that carry a recommendation. */
  function CountRecommended(ds: seq<Detection>): nat {
    if |ds| == 0 then 0 else (if ds[0].recommendation.Some? then 1 else 0) + CountRecommended(ds[1..])
  }

  /** The recommendations in evaluation order, before sorting. */
  function RecommendationsOf(ds: seq<Detection>): (r: seq<RankedRecommendation>)
    ensures |r| == CountRecommended(ds)
  {
    if |ds| == 0 then []
    else (if ds[0].recommendation.Some? then [EntryOf(ds[0])] else []) + RecommendationsOf(ds[1..])
  }

  /** One step of collecting: the head's entry if it has a recommendation, then the rest. */
  lemma RecommendationsStep(ds: seq<Detection>)
    requires |ds| > 0
    ensures RecommendationsOf(ds) == (if ds[0].recommendation.Some? then [EntryOf(ds[0])] else []) + RecommendationsOf(ds[1..])
  {
  }

  /** Recommendations are collected in detection order: collecting distributes over concatenation. */
  lemma {:induction false} RecommendationsOfAppend(a: seq<Detection>, b: seq<Detection>)
    ensures RecommendationsOf(a + b) == RecommendationsOf(a) + RecommendationsOf(b)
    decreases |a|
  {
    if |a| == 0 {
      assert a + b == b;
    } else {
      var x := a + b;
      assert x[0] == a[0] && x[1..] == a[1..] + b;
      RecommendationsStep(x);
      RecommendationsStep(a);
      RecommendationsOfAppend(a[1..], b);
    }
  }

  /**
   * Every recommendation is the entry of a detection that carries one, with its
   * id, severity and confidence, and every such detection contributes its entry.
   */
  lemma {:induction false} RecommendationsFromDetections(ds: seq<Detection>)
    ensures forall x :: x in RecommendationsOf(ds) ==> exists d :: d in ds && d.recommendation.Some? && x == EntryOf(d)
    ensures forall d :: d in ds && d.recommendation.Some? ==> EntryOf(d) in RecommendationsOf(ds)
  {
    if |ds| > 0 {
      RecommendationsFromDetections(ds[1..]);
      assert forall d :: d in ds ==> d == ds[0] || d in ds[1..];
    }
  }

  /** Every score lies in (0, 10]. */
  lemma RecommendationScoresBounded(ds: seq<Detection>)
    ensures forall x :: x in RecommendationsOf(ds) ==> 0.0 < x.priorityScore <= 10.0
  {
    RecommendationsFromDetections(ds);
  }

  /** A recommendation only accompanies an issue, in the detections `detect` produces. */
  lemma DetectionsRecommendOnlyIssues(ps: seq<Pattern>, files: seq<String>, dirs: seq<String>)
    ensures forall d :: d in DetectionsOf(ps, files, dirs) ==> (d.recommendation.Some? ==> d.issueFound)
  {
    DetectionsAreApplicableEvaluations(ps, files, dirs);
  }

  /** Hence there are never more recommendations than issues. */
  lemma {:induction false} RecommendationsBoundedByIssues(ds: seq<Detection>)
    requires forall d :: d in ds ==> (d.recommendation.Some? ==> d.issueFound)
    ensures CountRecommended(ds) <= CountIssues(ds)
  {
    if |ds| > 0 {
      RecommendationsBoundedByIssues(ds[1..]);
    }
  }

  // ---------------------------------------------------------------------------
  // detect

  /** What `detect` returns. */
  datatype Results = Results(
    projectName: String,
    projectTypes: seq<String>,
    frameworks: seq<String>,
    detections: seq<Detection>,
    recommendations: seq<RankedRecommendation>,
    summary: Summary)

  /** The `TypeError` that escapes `detect`, with the position of the pattern that raised it. */
  datatype DetectError = TypeError(patternIndex: nat)

  /**
   * `PatternDetector.detect`: the loop over the configured patterns, then the
   * stable sort of the recommendations by descending priority score.
   */
  method Detect(patterns: seq<Pattern>, snap: Snapshot) returns (r: Result<Results, DetectError>)
    ensures r.Failure? <==> exists i :: 0 <= i < |patterns| && RaisesAt(patterns, i, snap.files, snap.dirs)
    ensures r.Failure? ==> (r.error.patternIndex < |patterns| &&
      RaisesAt(patterns, r.error.patternIndex, snap.files, snap.dirs) &&
      forall i :: 0 <= i < r.error.patternIndex ==> !RaisesAt(patterns, i, snap.files, snap.dirs))
    ensures r.Success? ==> (r.value.projectName == snap.projectName &&
      r.value.projectTypes == snap.projectTypes && r.value.frameworks == snap.frameworks)
    ensures r.Success? ==> r.value.detections == DetectionsOf(patterns, snap.files, snap.dirs)
    ensures r.Success? ==> r.value.summary.totalPatterns == |patterns|
    ensures r.Success? ==> r.value.summary.issuesFound == CountIssues(r.value.detections)
    ensures r.Success? ==> r.value.summary.highSeverity == CountSeverity(r.value.detections, "high")
    ensures r.Success? ==> r.value.summary.mediumSeverity == CountSeverity(r.value.detections, "medium")
    ensures r.Success? ==> r.value.summary.lowSeverity == CountSeverity(r.value.detections, "low")
    ensures r.Success? ==> multiset(r.value.recommendations) == multiset(RecommendationsOf(r.value.detections))
    ensures r.Success? ==> NonIncreasing(r.value.recommendations, Score)
    ensures r.Success? ==> forall k: real :: WithKey(r.value.recommendations, Score, k) == WithKey(RecommendationsOf(r.value.detections), Score, k)
  {
    var files, dirs := snap.files, snap.dirs;
    var t := Tally([], [], 0, 0, 0, 0);
    var i := 0;
    while i < |patterns|
      invariant 0 <= i <= |patterns|
      invariant forall j :: 0 <= j < i ==> !RaisesAt(patterns, j, files, dirs)
      invariant t.detections == DetectionsOf(patterns[..i], files, dirs)
      invariant Tallies(t)
    {
      var p := patterns[i];
      DetectionsAppend(patterns[..i], p, files, dirs);
      assert patterns[..i + 1] == patterns[..i] + [p];
      if Applies(p, files) {
        if CheckIssue(p, files, dirs).Raises? {
          assert RaisesAt(patterns, i, files, dirs);
          return Failure(TypeError(i));
        }
        t := Record(t, Evaluate(p, files, dirs));
      }
      i := i + 1;
    }
    assert patterns[..i] == patterns;
    var sorted := RankRecommendations(t.recs);
    r := Success(Results(
      snap.projectName, snap.projectTypes, snap.frameworks, t.detections, sorted,
      Summary(|patterns|, t.issues, t.high, t.medium, t.low)));
  }

  /** The running state of the loop in `detect`. */
  datatype Tally = Tally(
    detections: seq<Detection>,
    recs: seq<RankedRecommendation>,
    issues: nat,
    high: nat,
    medium: nat,
    low: nat)

  /** The recommendations and counters agree with the detections recorded so far. */
  predicate Tallies(t: Tally) {
    t.recs == RecommendationsOf(t.detections) &&
    t.issues == CountIssues(t.detections) &&
    t.high == CountSeverity(t.detections, "high") &&
    t.medium == CountSeverity(t.detections, "medium") &&
    t.low == CountSeverity(t.detections, "low")
  }

  /** One iteration's bookkeeping for a detection: append it, bump the counters, queue its recommendation. */
  method Record(t: Tally, d: Detection) returns (u: Tally)
    requires Tallies(t)
    ensures Tallies(u) && u.detections == t.detections + [d]
  {
    CountsAppend(t.detections, d);
    RecommendationsAppend(t.detections, d);
    u := t.(detections := t.detections + [d]);
    if d.issueFound {
      u := u.(issues := u.issues + 1);
      if d.severity == "high" {
        u := u.(high := u.high + 1);
      } else if d.severity == "medium" {
        u := u.(medium := u.medium + 1);
      } else if d.severity == "low" {
        u := u.(low := u.low + 1);
      }
    }
    if d.recommendation.Some? {
      u := u.(recs := u.recs + [EntryOf(d)]);
    }
  }

  /** `recommendations.sort(key=priority_score, reverse=True)`: a stable descending sort. */
  method RankRecommendations(recs: seq<RankedRecommendation>) returns (sorted: seq<RankedRecommendation>)
    ensures multiset(sorted) == multiset(recs)
    ensures NonIncreasing(sorted, Score)
    ensures forall k: real :: WithKey(sorted, Score, k) == WithKey(recs, Score, k)
  {
    sorted := SortDesc(recs, Score);
    SortDescNonIncreasing(recs, Score);
    forall k: real ensures WithKey(sorted, Score, k) == WithKey(recs, Score, k) {
      SortDescStable(recs, Score, k);
    }
  }

  lemma {:induction false} DetectionsAppend(ps: seq<Pattern>, p: Pattern, files: seq<String>, dirs: seq<String>)
    ensures DetectionsOf(ps + [p], files, dirs) ==
      DetectionsOf(ps, files, dirs) + (if Applies(p, files) then [Evaluate(p, files, dirs)] else [])
  {
    if |ps| == 0 {
      assert ps + [p] == [p];
    } else {
      DetectionsAppend(ps[1..], p, files, dirs);
      assert (ps + [p])[1..] == ps[1..] + [p];
    }
  }

  lemma {:induction false} CountsAppend(ds: seq<Detection>, d: Detection)
    ensures CountIssues(ds + [d]) == CountIssues(ds) + (if d.issueFound then 1 else 0)
    ensures forall lbl :: (CountSeverity(ds + [d], lbl) ==
      CountSeverity(ds, lbl) + (if d.issueFound && d.severity == lbl then 1 else 0))
  {
    if |ds| == 0 {
      assert ds + [d] == [d];
    } else {
      CountsAppend(ds[1..], d);
      assert (ds + [d])[1..] == ds[1..] + [d];
    }
  }

  lemma {:induction false} RecommendationsAppend(ds: seq<Detection>, d: Detection)
    ensures RecommendationsOf(ds + [d]) ==
      RecommendationsOf(ds) + (if d.recommendation.Some? then [EntryOf(d)] else [])
  {
    if |ds| == 0 {
      assert ds + [d] == [d];
    } else {
      RecommendationsAppend(ds[1..], d);
      assert (ds + [d])[1..] == ds[1..] + [d];
    }
  }

  // ---------------------------------------------------------------------------
  // The three-pattern configuration of the detector's tests

  function ReadmePattern(): Pattern {
    Pattern("test-missing-readme", "file_absence", Path("README.md"), Some("high"), Some("high"), "",
      Some(Recommendation("documentation/README", "Test reason", [])))
  }

  function GitignorePattern(): Pattern {
    Pattern("test-missing-gitignore", "file_absence", Path(".gitignore"), Some("high"), Some("medium"), "",
      Some(Recommendation("git/gitignore", "Test reason", [])))
  }

  function CiPattern(): Pattern {
    Pattern("test-missing-ci", "directory_absence", Paths([".github/workflows", ".gitlab-ci.yml"]), Some("high"), Some("high"), "",
      Some(Recommendation("ci-cd/github-actions", "Test reason", [])))
  }

  /** The three test patterns evaluated on a project holding only `package.json`. */
  function TestDetections(): seq<Detection> {
    DetectionsOf([ReadmePattern(), GitignorePattern(), CiPattern()], ["package.json"], [])
  }

  /** Each of the three patterns applies and reports its issue. */
  lemma TestDetectionsFound()
    ensures var files: seq<String> := ["package.json"];
      TestDetections() == [Evaluate(ReadmePattern(), files, []), Evaluate(GitignorePattern(), files, []), Evaluate(CiPattern(), files, [])] &&
      forall k :: 0 <= k < 3 ==> TestDetections()[k].issueFound
  {
    var files: seq<String> := ["package.json"];
    var ps := [ReadmePattern(), GitignorePattern(), CiPattern()];
    assert Evaluate(ps[0], files, []).issueFound by {
      assert "package.json"[3..] == "kage.json";
      FileAbsentIff("README.md", files);
    }
    assert Evaluate(ps[1], files, []).issueFound by {
      assert "package.json"[2..] == "ckage.json";
      FileAbsentIff(".gitignore", files);
    }
    assert Evaluate(ps[2], files, []).issueFound by {
      var c := [".github/workflows", ".gitlab-ci.yml"];
      assert !IsYaml(c[0]) by {
        assert c[0][|c[0]| - 4..] == "lows" && c[0][|c[0]| - 5..] == "flows";
      }
      assert IsYaml(c[1]) by {
        assert c[1][|c[1]| - 4..] == ".yml";
      }
      YamlCandidateReportsAbsence(c, [], 1);
    }
    assert ps[1..] == [ps[1], ps[2]] && ps[1..][1..] == [ps[2]] && ps[1..][1..][1..] == [];
  }

  /**
   * With only `package.json` present all three patterns report an issue: two
   * high and one medium, and three recommendations scored 10, 3 and 10.
   */
  lemma TestConfigurationSummary()
    ensures var ds := TestDetections();
      CountIssues(ds) == 3 && CountSeverity(ds, "high") == 2 && CountSeverity(ds, "medium") == 1 &&
      CountSeverity(ds, "low") == 0 && |RecommendationsOf(ds)| == 3 &&
      [Score(RecommendationsOf(ds)[0]), Score(RecommendationsOf(ds)[1]), Score(RecommendationsOf(ds)[2])] == [10.0, 3.0, 10.0]
  {
    TestDetectionsFound();
    var ds := TestDetections();
    var d1, d2, d3 := ds[0], ds[1], ds[2];
    assert d1.severity == d3.severity == "high" && d2.severity == "medium";
    assert "high" != "medium" && "high" != "low" && "medium" != "low" by {
      assert "high"[0] != "medium"[0] && "high"[0] != "low"[0] && "medium"[0] != "low"[0];
    }
    assert ds[1..] == [d2, d3] && ds[1..][1..] == [d3] && ds[1..][1..][1..] == [];
    assert CountSeverity([d3], "medium") == 0 && CountSeverity([d2, d3], "medium") == 1;
    assert CountSeverity([d3], "high") == 1 && CountSeverity([d2, d3], "high") == 1;
    assert d1.recommendation.Some? && d2.recommendation.Some? && d3.recommendation.Some?;
    assert RecommendationsOf([d3]) == [EntryOf(d3)];
    assert RecommendationsOf([d2, d3]) == [EntryOf(d2), EntryOf(d3)];
  }

  /** The head of a non-increasing permutation carries the highest score of the input. */
  lemma TopScoreDominates(sorted: seq<RankedRecommendation>, recs: seq<RankedRecommendation>, x: RankedRecommendation)
    requires multiset(sorted) == multiset(recs) && NonIncreasing(sorted, Score)
    requires x in recs
    ensures |sorted| > 0 && sorted[0] in recs && Score(x) <= Score(sorted[0])
  {
    assert x in multiset(sorted);
    var j :| 0 <= j < |sorted| && sorted[j] == x;
    assert sorted[0] in multiset(recs);
  }

  /**
   * Whatever order a stable descending sort gives the three recommendations of
   * that run, the first one is of high severity.
   */
  lemma TestConfigurationTopIsHigh(sorted: seq<RankedRecommendation>)
    requires multiset(sorted) == multiset(RecommendationsOf(TestDetections()))
    requires NonIncreasing(sorted, Score)
    ensures |sorted| == 3 && sorted[0].severity == "high"
  {
    var recs := RecommendationsOf(TestDetections());
    assert |recs| == 3 && Score(recs[0]) == 10.0 by {
      TestConfigurationSummary();
    }
    SameElementsSameLength(sorted, recs);
    TopScoreDominates(sorted, recs, recs[0]);
    RecommendationsFromDetections(TestDetections());
    var d :| d in TestDetections() && d.recommendation.Some? && sorted[0] == EntryOf(d);
  }
}
