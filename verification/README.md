# Project analyzer pipeline, modelled in Dafny

This project models the four stages of the project analyzer in
`skills/project-analyzer/scripts/`. Each stage is written as pure functions over
sequences of path strings and small records.

- **Structure** (`structure.dfy`, from `analyze-structure.py`):
  - the skip predicate;
  - the top-down directory walk, over an in-memory tree instead of `os.walk`;
  - project-type detection from marker files;
  - framework matching over already-decoded manifest contents;
  - the CI and test-directory flags;
  - the project summary.
- **Pattern detection** (`patterns.dfy`, from `detect-patterns.py`):
  - applying `file_absence`, `directory_absence` and `file_quality` patterns;
  - the `applies_when` filter and recommendation variants;
  - the severity counters;
  - the confidence-weighted priority score;
  - the stable descending sort of recommendations. The sort itself is in `ranking.dfy`.
- **Health score** (`health.dfy`): the clamped penalty formula that both later stages use.
- **Memory integration** (`memory.dfy`, from `memory_integration.py`):
  - the session-isolation check;
  - the parameter records for storing and searching analyses;
  - the truncated integer health score.
- **Report** (`report.dfy`, from `generate-report.py`):
  - the five report sections, with emoji and line layout as tokens;
  - categorisation of detection ids;
  - per-category status icons;
  - the five-entry cap on priority actions;
  - rounding and rating of the displayed health score.

`text.dfy` gives Python's `in`, `startswith`, `endswith`, `lower`, `title`,
`replace` and `join` on strings, and `wrappers.dfy` gives `Option` and `Result`.

## How the model follows the code

- **Weights are exact.** They are Dafny `real`s, so 0.7 · 0.6 · 5 is exactly 21/10.
- **Exceptions are `Result` failures.** The model covers three:
  - a `file_absence` check given as a list raises `TypeError`, because a list is unhashable in a set;
  - a missing `file_absence` check raises `TypeError` as soon as there is a file, and a missing `directory_absence` check always raises it, because `None` cannot be iterated;
  - a `total_patterns` that is present and 0 raises `ZeroDivisionError` in the health score.
- **Behaviours of the code worth knowing:**
  - a summary whose `total_patterns` is 0 makes the health score divide by zero, in both the memory record and the report;
  - the priority list of the report is the first five of the sorted recommendations;
  - the report's categories are Git Configuration, Documentation, CI/CD, Code Quality and Setup, and any other detection is dropped from the status section;
  - `store_analysis` fails when `total_patterns` is 0.
- **Frameworks are a set.** `_detect_frameworks` returns `list(set(...))`, whose order is unspecified. The later stages take the framework list as given.

## Model

| member | source | states |
|---|---|---|
| Structure.ShouldSkipIff | skills/project-analyzer/scripts/analyze-structure.py:106-121 | a name is skipped iff it ends with `.pyc`, `.class`, `.o` or `.so`, or starts with one of the ten listed names |
| Structure.PlainEntriesSkip | skills/project-analyzer/scripts/analyze-structure.py:114-119 | plain entries of the skip loop skip exactly the names they are a prefix of |
| Structure.StarEntriesSkip | skills/project-analyzer/scripts/analyze-structure.py:114-117 | `*` entries skip exactly the names ending with the entry minus its star |
| Structure.SkippedByAppend | skills/project-analyzer/scripts/analyze-structure.py:114-121 | the first-match loop over a concatenated list matches iff it matches one of the parts |
| Structure.SkipExamples | skills/project-analyzer/scripts/analyze-structure.py:108-119 | `.github`, `.gitignore` and `build.gradle` are skipped by prefix, along with `node_modules`, `__pycache__` and `main.pyc` |
| Structure.KeptWhenNoEntryMatches | skills/project-analyzer/scripts/analyze-structure.py:114-121 | a name that no entry matches is kept |
| Structure.SrcIsKept | tests/unit/test_analyze_structure.py:105-123 | `src` is not skipped |
| Structure.WalkRecordsUnskippedFiles | skills/project-analyzer/scripts/analyze-structure.py:72-87 | the walk records each file that is not skipped and not under a skipped directory exactly once, and no other |
| Structure.WalkRecordsUnskippedDirs | skills/project-analyzer/scripts/analyze-structure.py:72-81 | the walk records each unskipped directory exactly once; a skipped directory is neither recorded nor descended into |
| Structure.WalkCounts | skills/project-analyzer/scripts/analyze-structure.py:78-87 | the counts equal the number of unskipped files and directories |
| Structure.SkippedEntryIsInvisible | skills/project-analyzer/scripts/analyze-structure.py:74 | adding a skipped entry anywhere in a directory leaves the walk's output unchanged |
| Structure.SkippedHereInvisible | skills/project-analyzer/scripts/analyze-structure.py:74-87 | a skipped entry adds nothing to a directory's own recorded files and subdirectories |
| Structure.SkippedDescendInvisible | skills/project-analyzer/scripts/analyze-structure.py:72-74 | a skipped entry adds nothing to what the walk records below a directory |
| Structure.TypeRanks | skills/project-analyzer/scripts/analyze-structure.py:21-30 | each project type's rank is its position in the indicator table |
| Structure.IndicatorMatchesIff | skills/project-analyzer/scripts/analyze-structure.py:129-145 | a directory indicator matches by directory prefix, and any other indicator matches by file suffix |
| Structure.AnyIndicatorMatchesIff | skills/project-analyzer/scripts/analyze-structure.py:129-145 | the inner loop with `break` finds a match iff some indicator matches |
| Structure.TypesFrom | skills/project-analyzer/scripts/analyze-structure.py:128-145 | from a table position on: the detected types are exactly the matching rows, in strictly increasing table order |
| Structure.DetectProjectTypes | skills/project-analyzer/scripts/analyze-structure.py:123-147 | a type is listed iff one of its indicators matches; the list has no duplicates, follows table order, and never contains `unknown` |
| Structure.PackageJsonMeansNode | tests/unit/test_analyze_structure.py:69-78 | a `package.json` makes the project a node project |
| Structure.RequirementsMeansPython | tests/unit/test_analyze_structure.py:81-90 | a `requirements.txt` makes the project a python project |
| Structure.NothingMatchesWithoutPaths | skills/project-analyzer/scripts/analyze-structure.py:129-145 | with no paths, no indicator matches |
| Structure.NoTypesFromWithoutPaths | skills/project-analyzer/scripts/analyze-structure.py:128-147 | with no paths, no table position detects a type |
| Structure.NoTypesWithoutPaths | tests/unit/test_analyze_structure.py:42-51 | an empty tree has no project type |
| Structure.AnyIndicatorFoundIff | skills/project-analyzer/scripts/analyze-structure.py:161-165 | the inner framework loop with `break` finds a framework iff one of its indicators is a substring of a subject |
| Structure.FrameworksFrom | skills/project-analyzer/scripts/analyze-structure.py:161-180 | from a table position on: a framework is listed iff one of its indicators is a substring of a subject |
| Structure.DetectFrameworks | skills/project-analyzer/scripts/analyze-structure.py:149-184 | a framework is present iff an indicator is a substring of a dependency key or of the requirements text |
| Structure.FrameworkExamples | tests/unit/test_analyze_structure.py:126-152 | a `react` dependency gives react; `Django>=4.0.0` in the requirements gives django |
| Structure.CiFromIff | skills/project-analyzer/scripts/analyze-structure.py:196-204 | the CI loop succeeds iff some indicator matches |
| Structure.CiFileIndicator | skills/project-analyzer/scripts/analyze-structure.py:197-199 | a file indicator matches iff some file ends with it |
| Structure.HasCiIff | skills/project-analyzer/scripts/analyze-structure.py:186-204 | CI is set up iff a file ends with one of the four CI file names or a directory starts with `.github/workflows` |
| Structure.HasTestsIff | skills/project-analyzer/scripts/analyze-structure.py:206-213 | tests are set up iff some lower-cased directory path contains `test` or `spec` |
| Structure.ScanStructure | skills/project-analyzer/scripts/analyze-structure.py:55-104 | the recorded paths are the walk's, which are exactly the unskipped tree entries, with matching counts; the name passes through; the types, frameworks, CI flag and tests flag are the detectors applied to the recorded paths and manifests; `has_git` is the probe; an empty tree gives 0, 0 and no types |
| Structure.InfoOf | skills/project-analyzer/scripts/analyze-structure.py:215-236 | the primary type is `unknown` iff no type was detected, and otherwise the first type, which has the lowest table rank; every other field is copied from the scan |
| Structure.GetProjectInfo | skills/project-analyzer/scripts/analyze-structure.py:215-236 | the summary's totals are the numbers of unskipped files and directories; its types are the detected types of the walk and its primary type is the first of them, or `unknown` iff there are none; frameworks, CI, tests and git come from their detectors |
| Structure.EmptyProjectScan | tests/unit/test_analyze_structure.py:42-51 | an empty project records no files, no directories and no types |
| Structure.OneKeptDirectory | skills/project-analyzer/scripts/analyze-structure.py:72-81 | one kept, empty directory at the root is recorded alone |
| Structure.SkippedThenKept | skills/project-analyzer/scripts/analyze-structure.py:74-81 | skipped directories listed before a kept one leave only the kept one recorded |
| Structure.GitIsSkipped | skills/project-analyzer/scripts/analyze-structure.py:109 | `.git` is skipped |
| Structure.SkippedDirectoriesExample | tests/unit/test_analyze_structure.py:105-123 | of `node_modules`, `__pycache__`, `.git` and `src`, only `src` is recorded |
| Patterns.UnrecognisedConditionHolds | skills/project-analyzer/scripts/detect-patterns.py:168-180 | a condition naming no known marker, including the empty condition, always holds |
| Patterns.SelectVariant | skills/project-analyzer/scripts/detect-patterns.py:182-190 | gives the first variant whose condition holds, and nothing iff no condition holds |
| Patterns.ResolveRecommendation | skills/project-analyzer/scripts/detect-patterns.py:118-127 | the selected variant's template replaces the template; with no selected variant the recommendation is unchanged; the reason is always kept |
| Patterns.FileAbsentIff | skills/project-analyzer/scripts/detect-patterns.py:131-133 | a file is absent iff no file ends with the check; an exact match is the special case |
| Patterns.DirectoryPresentIff | skills/project-analyzer/scripts/detect-patterns.py:135-150 | the check reports presence iff a candidate before the first `.yml`/`.yaml` candidate starts some directory |
| Patterns.DirectoryAbsentWithoutYaml | skills/project-analyzer/scripts/detect-patterns.py:140-150 | without YAML candidates, absence means that no candidate starts a directory |
| Patterns.YamlCandidateReportsAbsence | skills/project-analyzer/scripts/detect-patterns.py:141-144 | reaching a `.yml`/`.yaml` candidate before any found directory reports absence |
| Patterns.MissingCiExample | tests/unit/test_detect_patterns.py:152-177 | with directories `src` and `tests`, the CI check reports absence |
| Patterns.OnlyAbsenceChecksReport | skills/project-analyzer/scripts/detect-patterns.py:108-116 | `file_quality` and unknown types never report an issue; `file_absence` on a path reports iff no file ends with it |
| Patterns.Evaluate | skills/project-analyzer/scripts/detect-patterns.py:88-129 | confidence and severity default to `medium`; the issue flag is the check's verdict; a recommendation is attached iff there is an issue and the pattern has one |
| Patterns.ApplicablePatterns | skills/project-analyzer/scripts/detect-patterns.py:95-98 | a pattern is kept iff it is configured and its `applies_when` holds; the result never grows |
| Patterns.ApplicablePatternsAppend | skills/project-analyzer/scripts/detect-patterns.py:55-59 | the filter distributes over concatenation, so the applicable patterns keep their configuration order |
| Patterns.DetectionsAreApplicableEvaluations | skills/project-analyzer/scripts/detect-patterns.py:55-59 | the detections are the evaluations of the applicable patterns, in order, and number at most the configured patterns |
| Patterns.InapplicablePatternIsInvisible | skills/project-analyzer/scripts/detect-patterns.py:95-98 | a pattern whose `applies_when` fails leaves no trace in the detections |
| Patterns.SeverityCountsBounded | skills/project-analyzer/scripts/detect-patterns.py:61-70 | high + medium + low ≤ issues found ≤ number of detections |
| Patterns.Priority | skills/project-analyzer/scripts/detect-patterns.py:192-203 | every score lies in (0, 10], and equals 10 iff confidence and severity are both high |
| Patterns.PriorityValues | skills/project-analyzer/scripts/detect-patterns.py:194-203 | high/high is 10 and medium/medium is 2.1; unknown labels score as medium |
| Patterns.PriorityMonotoneInSeverity | skills/project-analyzer/scripts/detect-patterns.py:195-203 | low < medium < high severity for any confidence |
| Patterns.RecommendationsOf | skills/project-analyzer/scripts/detect-patterns.py:72-81 | one entry per detection that carries a recommendation |
| Patterns.RecommendationsOfAppend | skills/project-analyzer/scripts/detect-patterns.py:72-81 | collecting distributes over concatenation, so recommendations follow detection order |
| Patterns.RecommendationsFromDetections | skills/project-analyzer/scripts/detect-patterns.py:73-81 | each entry has the id, severity and confidence of a recommending detection, and each such detection has its entry |
| Patterns.RecommendationScoresBounded | skills/project-analyzer/scripts/detect-patterns.py:80 | every recommendation's score lies in (0, 10] |
| Patterns.DetectionsRecommendOnlyIssues | skills/project-analyzer/scripts/detect-patterns.py:118-127 | only issue-found detections carry a recommendation |
| Patterns.RecommendationsBoundedByIssues | skills/project-analyzer/scripts/detect-patterns.py:61-81 | there are never more recommendations than issues |
| Patterns.Detect | skills/project-analyzer/scripts/detect-patterns.py:35-86 | fails iff an applicable pattern's check raises, reporting the first one; otherwise: `total_patterns` counts all patterns; the counters count issue-found detections per severity; the recommendations are a non-increasing, stable permutation of the unsorted list |
| Patterns.Record | skills/project-analyzer/scripts/detect-patterns.py:58-81 | one loop step keeps the counters and recommendations in agreement with the detections |
| Patterns.RankRecommendations | skills/project-analyzer/scripts/detect-patterns.py:84 | the sorted list is a permutation, non-increasing in score, and keeps the order of equal scores |
| Patterns.TestDetectionsFound | tests/unit/test_detect_patterns.py:25-78 | in a project with only `package.json`, all three test patterns apply and report an issue |
| Patterns.TestConfigurationSummary | tests/unit/test_detect_patterns.py:240-264 | that run finds 3 issues (2 high, 1 medium), and exactly three recommendations scored 10, 3 and 10 |
| Patterns.TestConfigurationTopIsHigh | tests/unit/test_detect_patterns.py:181-205 | after any stable descending sort, that run's first recommendation has high severity |
| Ranking.Insert | skills/project-analyzer/scripts/detect-patterns.py:84 | insertion keeps the multiset and adds one element |
| Ranking.SortDesc | skills/project-analyzer/scripts/detect-patterns.py:84 | the sort is a permutation of its input |
| Ranking.SortDescNonIncreasing | skills/project-analyzer/scripts/detect-patterns.py:84 | the sort's output is non-increasing in the key, as `reverse=True` requires |
| Ranking.SortDescStable | skills/project-analyzer/scripts/detect-patterns.py:84 | the elements sharing any one key value keep their input order |
| Health.Clamped | skills/project-analyzer/scripts/memory_integration.py:177-181 | the score is `max(0, 100 - penalties)`: at least 0, at least 100 minus the three penalties, and equal to that difference whenever it is above 0; with a positive total and non-negative counts it is at most 100 |
| Health.ClampedScore | skills/project-analyzer/scripts/memory_integration.py:170-181 | fails iff `total_patterns` is present and 0; a missing total counts as 1 |
| Health.PerfectIff | skills/project-analyzer/scripts/memory_integration.py:177-181 | the score is 100 iff there are no issues and no high or medium findings |
| Health.Antitone | skills/project-analyzer/scripts/memory_integration.py:177-181 | for a fixed total, more issues, more high or more medium findings never raise the score |
| Health.EmptySummaryIsPerfect | skills/project-analyzer/scripts/generate-report.py:180-190 | a summary with no counters scores 100 |
| Memory.NewIntegration | skills/project-analyzer/scripts/memory_integration.py:22-36 | succeeds iff the explicit or the discovered id is non-empty; the explicit id wins; otherwise it fails with `ValueError` |
| Memory.EnsureIsolation | skills/project-analyzer/scripts/memory_integration.py:89-103 | accepts iff the mode is `session_only` and the session id is present and non-empty; a wrong mode is reported first |
| Memory.CreateIsolatedParams | skills/project-analyzer/scripts/memory_integration.py:61-87 | the record passes the isolation check, carries the object's session id, and passes content, tags and importance through |
| Memory.ConfidenceScoresKeys | skills/project-analyzer/scripts/memory_integration.py:123-126 | the confidence map has one key per detection id |
| Memory.ConfidenceScoresLastWins | skills/project-analyzer/scripts/memory_integration.py:123-126 | each id maps to the confidence of the last detection with that id |
| Memory.HealthScore | skills/project-analyzer/scripts/memory_integration.py:168-183 | the integer score is the clamped score truncated; it fails iff the total is present and 0 |
| Memory.StoreAnalysis | skills/project-analyzer/scripts/memory_integration.py:105-142 | the record is isolated, has the fixed tags and importance 8, and counts the detections; `issues_found` defaults to 0; the confidence map is the last-wins map from detection id to confidence; project types and frameworks are passed through; the health score is `HealthScore` of the summary; the only failure is a zero total; with a positive total and non-negative counts the health score is in [0, 100] |
| Memory.RetrieveAnalysisHistory | skills/project-analyzer/scripts/memory_integration.py:144-166 | never fails; passes isolation; the query is `project-analysis ` followed by the name; tags, limit 10 and format `concise` |
| Memory.StoreDetectorResults | skills/project-analyzer/scripts/memory_integration.py:105-142 | storing the detector's own results fails iff it had no patterns; otherwise it copies the detector's counts |
| Memory.HealthScoreExamples | tests/unit/test_memory_integration.py:181-236 | (10,0,0,0) gives 100, (10,1,1,0) gives 70, (10,4,1,2) gives 20, (10,10,10,0) gives 0; also (13,4,1,2), whose exact score 380/13 truncates to 29 |
| Memory.HealthScoreAntitone | skills/project-analyzer/scripts/memory_integration.py:176-183 | the truncated score never rises when a counter rises |
| Memory.IsolationExamples | tests/unit/test_memory_integration.py:70-112 | a valid record passes; a wrong mode or a missing id is refused; with both wrong, the mode error is reported |
| Report.ReportedCategoriesRanked | skills/project-analyzer/scripts/generate-report.py:84-90 | the reported categories are exactly those other than `Other`, in fixed order |
| Report.EarlierTestWins | skills/project-analyzer/scripts/generate-report.py:210-214 | an id containing `readme` and no Git marker is documentation, even if it contains `ci` |
| Report.ReadmeCiIsDocumentation | skills/project-analyzer/scripts/generate-report.py:210-214 | `readme-ci` is documentation |
| Report.CiWorkflowIsCiCd | skills/project-analyzer/scripts/generate-report.py:210-215 | `missing-ci-workflow` is CI/CD |
| Report.UnmatchedIsOther | skills/project-analyzer/scripts/generate-report.py:208-221 | an id that matches no test is `Other` |
| Report.Lookup | skills/project-analyzer/scripts/generate-report.py:241 | finds the first entry with the key, and nothing iff no entry has it |
| Report.GetDescription | skills/project-analyzer/scripts/generate-report.py:223-241 | a table id gets its table text; any other id gets the fallback |
| Report.FallbackSpellsId | skills/project-analyzer/scripts/generate-report.py:241 | the fallback spells the id up to letter case, with hyphens turned into spaces |
| Report.KnownDescriptions | skills/project-analyzer/scripts/generate-report.py:226-229 | `missing-readme` and `missing-gitignore` get their table texts |
| Report.FormatIssue | skills/project-analyzer/scripts/generate-report.py:128-155 | an issue line carries the id's description, the labels and the recommendation; its icon is error iff severity is high, warning iff medium, and info otherwise |
| Report.InCategory | skills/project-analyzer/scripts/generate-report.py:93-98 | exactly the detections filed under the category |
| Report.InCategoryAppend | skills/project-analyzer/scripts/generate-report.py:93-98 | filing distributes over concatenation, so each category keeps detection order |
| Report.IssueLines | skills/project-analyzer/scripts/generate-report.py:120-124 | each line formats an issue-found detection, and each issue-found detection has its line |
| Report.IssueLinesAppend | skills/project-analyzer/scripts/generate-report.py:120-124 | formatting distributes over concatenation, so issue lines follow detection order |
| Report.StatusIconIff | skills/project-analyzer/scripts/generate-report.py:107-116 | the icon is ok iff there are no issues, error iff some issue has high severity, and warning otherwise |
| Report.HasIssueIff | skills/project-analyzer/scripts/generate-report.py:108-109 | the issue and high-severity tests are the two `any` conditions |
| Report.BlocksFor | skills/project-analyzer/scripts/generate-report.py:103-124 | each block is for a listed category that has a detection, and shows that category's own icon and lines |
| Report.BlocksForCovers | skills/project-analyzer/scripts/generate-report.py:103-105 | each listed category that has a detection gets its block |
| Report.BlocksOrdered | skills/project-analyzer/scripts/generate-report.py:103 | blocks follow the order of the category list |
| Report.CategoryStatusShape | skills/project-analyzer/scripts/generate-report.py:82-126 | `Other` never appears, and blocks appear once each, in fixed order |
| Report.CategoryAppearsIff | skills/project-analyzer/scripts/generate-report.py:93-105 | a category has a block iff it is not `Other` and some detection is filed under it |
| Report.ActionLines | skills/project-analyzer/scripts/generate-report.py:167-173 | entry i is numbered from the start value and shows recommendation i's description, severity and template |
| Report.PriorityActionsOf | skills/project-analyzer/scripts/generate-report.py:157-175 | the "no priority actions" line appears iff there are no recommendations; otherwise at most 5 entries, numbered from 1, in the given order |
| Report.RoundHalfEven | skills/project-analyzer/scripts/generate-report.py:206 | the shown score is within 1/2 of the real score, and a tie goes to the even integer |
| Report.RoundHalfEvenUnique | skills/project-analyzer/scripts/generate-report.py:206 | that rounding contract determines the shown integer |
| Report.RoundingDiffersFromTruncation | skills/project-analyzer/scripts/generate-report.py:206 | 89.5 is shown as 90, but the stored score truncates it to 89; 88.5 is shown as 88 |
| Report.RatingMonotone | skills/project-analyzer/scripts/generate-report.py:192-204 | a higher score never gets a lower rating |
| Report.ProjectInfoOf | skills/project-analyzer/scripts/generate-report.py:55-80 | defaults are `Unknown Project`, `Unknown` and 0; the type label is `title` of the types joined by `, `; the frameworks line appears iff there are frameworks and is `title` of their join |
| Report.HealthSectionOf | skills/project-analyzer/scripts/generate-report.py:177-206 | fails iff the total is present and 0; the rating comes from the unrounded score; the shown score is its half-even rounding |
| Report.HealthSectionExample | tests/integration/test_analyzer_workflow.py:317-343 | the summary (20, 3, 1, 1) is shown as 55 with a Fair rating |
| Report.GenerateReport | skills/project-analyzer/scripts/generate-report.py:39-49 | five sections in order (header, project info, category status, priority actions, health); fails iff the health section fails |
| Text.Title | skills/project-analyzer/scripts/generate-report.py:241 | `title` keeps the length and changes only letter case. A letter with no letter right before it is upper-case, a letter right after a letter is lower-case, and any other character is kept |
| Text.TitleUnique | skills/project-analyzer/scripts/generate-report.py:241 | these rules determine the result: any string that obeys them is `Title(s)` |
| Text.TitleExample | skills/project-analyzer/scripts/generate-report.py:61 | the joined types `node, python` become `Node, Python` |
| Text.TitleExampleUpper | skills/project-analyzer/scripts/generate-report.py:61 | `NODE, PYTHON` also becomes `Node, Python`, since letters inside a word are lower-cased |
| Text.JoinWith | skills/project-analyzer/scripts/generate-report.py:61 | `join` of no parts is empty, starts with the first part, and contains the separator when there are at least two parts |
| Text.JoinWithLength | skills/project-analyzer/scripts/generate-report.py:61 | the joined length is the parts' total length plus one separator per pair of neighbours |
| Text.JoinWithParts | skills/project-analyzer/scripts/generate-report.py:61 | part i occurs in the join at the offset after the i earlier parts and i separators |
| Text.JoinWithSeparators | skills/project-analyzer/scripts/generate-report.py:61 | a separator follows every part but the last |
| Text.PartOffsetStep | skills/project-analyzer/scripts/generate-report.py:61 | consecutive part offsets are one part and one separator apart, so parts and separators tile the join |

## Left out

- YAML loading of the pattern file, and the unused `scoring` and `severity` blocks. Patterns are a given sequence.
- Pattern fields that are missing or of the wrong type, other than those listed below, such as a missing `id` or a variant without `template`. Their datatypes always carry these fields.
- Checks of other types, such as numbers, are not modelled. A check is absent, one path or a list of paths, and raising is modelled only for the cases above.
- Filesystem access:
  - `os.walk`, which becomes a finite tree;
  - `Path.resolve` and the existence checks in `ProjectAnalyzer.__init__`;
  - the `.git` probe, which becomes a boolean parameter;
  - reading and JSON-decoding `package.json` and `requirements.txt`, which become optional decoded inputs. `None` covers the failures the source catches, `IOError` and `JSONDecodeError`. A manifest that is not UTF-8 raises `UnicodeDecodeError`, which neither handler catches; the model does not represent it. A `package.json` that is valid JSON but not an object, or whose `dependencies` is not an object, makes the source raise `AttributeError` or `TypeError`; the model does not represent such a manifest.
- Missing keys of the project structure passed to `detect`. The source reads each key with a default: `unknown` for `project_name` and `[]` for the four lists. A `Snapshot` always carries every field, so a caller supplies those defaults itself. The scan always produces every key.
- The order of `list(set(frameworks))` is unspecified in Python, so `DetectFrameworks` returns a set.
- Session-id discovery through `.claude/project-session-id`. It becomes the `discovered` parameter of `NewIntegration`.
- The `datetime.now()` timestamp and the `json.dumps` serialisation of stored content. Content is kept as a record.
- All `main()` entry points, stdin and stdout handling, and console encoding set-up.
- Emoji glyphs and exact report line layout. Icons and sections are tokens.
- `_format_issue` text layout. Only the fields of the line are modelled.
- `lower` and `title` act on ASCII letters only. Unicode case mapping is not modelled.
- Binary floating point. Scores and weights are exact reals, so a score such as 0.7 · 0.6 · 5 that binary floats round is exact here. The same applies to `:.0f` rounding of a float that is not exactly representable.
- Memory.HealthScore: computes `int()` of the exact score, which can be one more than the source stores. Take total 20, 11 issues and no high or medium findings. In binary floating point the source computes 44.99999999999999 and `int()` stores 44, while the report's `:.0f` shows 45; the model gives 45 for both. The model therefore cannot express this disagreement between the stored and the displayed score.
- `Health.Clamped`: the 0-to-100 bound is stated only for a positive total and non-negative counts, since the source accepts any numbers.
- Test harnesses, hook configuration, command markdown, secret scanners and benchmarks under `tests/`. They serve only as evidence for concrete values.
