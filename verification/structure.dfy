/**
 * The structure scanner of `analyze-structure.py`: which names the walk skips,
 * the walk itself over an in-memory directory tree, and the classification of
 * the collected paths into project types, frameworks and setup flags.
 */
module Structure {
  import opened Wrappers
  import opened Text

  // ---------------------------------------------------------------------------
  // The skip predicate

  /** `skip_patterns` of `_should_skip`, in source order. */
  const SkipPatterns: seq<String> := [
    "node_modules", "__pycache__", ".git", ".venv", "venv",
    "target", "dist", "build", ".next", ".nuxt",
    "*.pyc", "*.class", "*.o", "*.so"
  ]

  /** The plain entries of the skip list: each skips every name it is a prefix of. */
  const SkipPrefixes: seq<String> := [
    "node_modules", "__pycache__", ".git", ".venv", "venv",
    "target", "dist", "build", ".next", ".nuxt"
  ]

  /** The `*` entries of the skip list, without their star: each skips the names ending with it. */
  const SkipSuffixes: seq<String> := [".pyc", ".class", ".o", ".so"]

  /** One entry of the skip list tested against a name, as the loop body does. */
  predicate SkipEntryMatches(pattern: String, name: String) {
    if |pattern| > 0 && pattern[0] == '*' then EndsWith(name, pattern[1..])
    else name == pattern || StartsWith(name, pattern)
  }

  /** The loop of `_should_skip` over `patterns`: true at the first entry that matches. */
  predicate SkippedBy(patterns: seq<String>, name: String) {
    |patterns| > 0 && (SkipEntryMatches(patterns[0], name) || SkippedBy(patterns[1..], name))
  }

  /** A list of plain entries skips exactly the names that one of them is a prefix of. */
  lemma {:induction false} PlainEntriesSkip(patterns: seq<String>, name: String)
    requires forall i :: 0 <= i < |patterns| ==> |patterns[i]| > 0 && patterns[i][0] != '*'
    ensures SkippedBy(patterns, name) <==> exists i :: 0 <= i < |patterns| && StartsWith(name, patterns[i])
  {
    if |patterns| > 0 {
      PlainEntriesSkip(patterns[1..], name);
      assert forall i :: 0 < i < |patterns| ==> patterns[i] == patterns[1..][i - 1];
    }
  }

  /** A list of `*` entries skips exactly the names that end with one of them, star removed. */
  lemma {:induction false} StarEntriesSkip(patterns: seq<String>, name: String)
    requires forall i :: 0 <= i < |patterns| ==> |patterns[i]| > 0 && patterns[i][0] == '*'
    ensures SkippedBy(patterns, name) <==> exists i :: 0 <= i < |patterns| && EndsWith(name, patterns[i][1..])
  {
    if |patterns| > 0 {
      StarEntriesSkip(patterns[1..], name);
      assert forall i :: 0 < i < |patterns| ==> patterns[i] == patterns[1..][i - 1];
    }
  }

  /** The loop over a concatenated list matches if it matches in either part. */
  lemma {:induction false} SkippedByAppend(a: seq<String>, b: seq<String>, name: String)
    ensures SkippedBy(a + b, name) <==> SkippedBy(a, name) || SkippedBy(b, name)
  {
    if |a| > 0 {
      SkippedByAppend(a[1..], b, name);
      assert (a + b)[1..] == a[1..] + b;
    } else {
      assert a + b == b;
    }
  }

  /** `_should_skip(name)` */
  predicate ShouldSkip(name: String) {
    SkippedBy(SkipPatterns, name)
  }

  /**
   * A name is skipped iff it ends with one of the skipped suffixes or starts with
   * one of the skipped names. Prefix semantics means that `.github`, `.gitignore`
   * and `build.gradle` are skipped as well.
   */
  lemma ShouldSkipIff(name: String)
    ensures ShouldSkip(name) <==>
      (exists i :: 0 <= i < |SkipSuffixes| && EndsWith(name, SkipSuffixes[i])) ||
      (exists i :: 0 <= i < |SkipPrefixes| && StartsWith(name, SkipPrefixes[i]))
  {
    var stars: seq<String> := ["*.pyc", "*.class", "*.o", "*.so"];
    assert SkipPatterns == SkipPrefixes + stars;
    SkippedByAppend(SkipPrefixes, stars, name);
    PlainEntriesSkip(SkipPrefixes, name);
    assert forall i :: 0 <= i < 4 ==> stars[i][1..] == SkipSuffixes[i];
    StarEntriesSkip(stars, name);
  }

  /** Prefix matching skips `.github`, `.gitignore` and `build.gradle` along with the listed names. */
  lemma SkipExamples()
    ensures ShouldSkip(".github") && ShouldSkip(".gitignore") && ShouldSkip("build.gradle")
    ensures ShouldSkip("node_modules") && ShouldSkip("__pycache__") && ShouldSkip("main.pyc")
  {
    ShouldSkipIff(".github");
    assert StartsWith(".github", SkipPrefixes[2]);
    ShouldSkipIff(".gitignore");
    assert StartsWith(".gitignore", SkipPrefixes[2]);
    ShouldSkipIff("build.gradle");
    assert StartsWith("build.gradle", SkipPrefixes[7]);
    ShouldSkipIff("node_modules");
    assert StartsWith("node_modules", SkipPrefixes[0]);
    ShouldSkipIff("__pycache__");
    assert StartsWith("__pycache__", SkipPrefixes[1]);
    ShouldSkipIff("main.pyc");
    assert EndsWith("main.pyc", SkipSuffixes[0]);
  }

  /** A name that no entry matches is kept. */
  lemma {:induction false} KeptWhenNoEntryMatches(patterns: seq<String>, name: String)
    requires forall i :: 0 <= i < |patterns| ==> !SkipEntryMatches(patterns[i], name)
    ensures !SkippedBy(patterns, name)
  {
    if |patterns| > 0 {
      KeptWhenNoEntryMatches(patterns[1..], name);
    }
  }

  /** An ordinary source directory is kept: every listed name is longer than it, and no suffix fits. */
  lemma SrcIsKept()
    ensures !ShouldSkip("src")
  {
    var name := "src";
    forall i | 0 <= i < |SkipPatterns| ensures !SkipEntryMatches(SkipPatterns[i], name) {
      if i >= 10 {
        assert name[|name| - 1..] == "c" && name[|name| - 2..] == "rc";
      }
    }
    KeptWhenNoEntryMatches(SkipPatterns, name);
  }

  // ---------------------------------------------------------------------------
  // The walk

  /** An entry of the project tree: what `os.walk` reads from the filesystem. */
  datatype Node = File(name: String) | Dir(name: String, children: seq<Node>)

  /** The files and directories the walk records, as relative paths in visiting order. */
  datatype Listing = Listing(files: seq<String>, dirs: seq<String>)

  /** `str(rel_root / name)`, where the root itself is the empty relative path. */
  function Join(rel: String, name: String): String {
    if rel == "" then name else rel + "/" + name
  }

  /** The path of `e` when it is a file the walk records, else nothing. */
  function FileHere(rel: String, e: Node): seq<String> {
    if e.File? && !ShouldSkip(e.name) then [Join(rel, e.name)] else []
  }

  /** The path of `e` when it is a directory that survives the `dirs[:]` filter, else nothing. */
  function DirHere(rel: String, e: Node): seq<String> {
    if e.Dir? && !ShouldSkip(e.name) then [Join(rel, e.name)] else []
  }

  /** The files of one directory that the walk records, in listing order. */
  function FilesHere(rel: String, entries: seq<Node>): seq<String> {
    if |entries| == 0 then [] else FileHere(rel, entries[0]) + FilesHere(rel, entries[1..])
  }

  /** The subdirectories of one directory that the walk records, in listing order. */
  function DirsHere(rel: String, entries: seq<Node>): seq<String> {
    if |entries| == 0 then [] else DirHere(rel, entries[0]) + DirsHere(rel, entries[1..])
  }

  /** What the walk records below `e`: its whole walk if it is a kept directory, else nothing. */
  function WalkInto(rel: String, e: Node): Listing
    decreases e, 2
  {
    if e.Dir? && !ShouldSkip(e.name) then Walk(Join(rel, e.name), e.children) else Listing([], [])
  }

  /** `os.walk` visiting the kept subdirectories of one directory, one after another. */
  function Descend(rel: String, entries: seq<Node>): Listing
    decreases entries, 0
  {
    if |entries| == 0 then Listing([], [])
    else
      var first := WalkInto(rel, entries[0]);
      var rest := Descend(rel, entries[1..]);
      Listing(first.files + rest.files, first.dirs + rest.dirs)
  }

  /**
   * The walk of `scan_structure` from a directory at relative path `rel` whose
   * contents are `entries`: top-down, so a directory's own kept subdirectories and
   * files are recorded before the walk descends into those subdirectories.
   */
  function Walk(rel: String, entries: seq<Node>): Listing
    decreases entries, 1
  {
    var below := Descend(rel, entries);
    Listing(FilesHere(rel, entries) + below.files, DirsHere(rel, entries) + below.dirs)
  }

  /** Reference: the file paths a tree node contributes, nothing under a skipped name. */
  function NodeFiles(rel: String, n: Node): multiset<String>
    decreases n
  {
    if ShouldSkip(n.name) then multiset{}
    else match n
      case File(name) => multiset{Join(rel, name)}
      case Dir(name, children) => EntriesFiles(Join(rel, name), children)
  }

  function EntriesFiles(rel: String, entries: seq<Node>): multiset<String>
    decreases entries
  {
    if |entries| == 0 then multiset{} else NodeFiles(rel, entries[0]) + EntriesFiles(rel, entries[1..])
  }

  /** Reference: the directory paths a tree node contributes, nothing under a skipped name. */
  function NodeDirs(rel: String, n: Node): multiset<String>
    decreases n
  {
    if ShouldSkip(n.name) then multiset{}
    else match n
      case File(_) => multiset{}
      case Dir(name, children) => multiset{Join(rel, name)} + EntriesDirs(Join(rel, name), children)
  }

  function EntriesDirs(rel: String, entries: seq<Node>): multiset<String>
    decreases entries
  {
    if |entries| == 0 then multiset{} else NodeDirs(rel, entries[0]) + EntriesDirs(rel, entries[1..])
  }

  /** The four parts the walk of a non-empty directory splits into. */
  lemma MultisetOfFour<T>(a: seq<T>, b: seq<T>, c: seq<T>, d: seq<T>)
    ensures multiset(a + b + (c + d)) == multiset(a + c) + multiset(b + d)
  {
  }

  /**
   * The walk records exactly the unskipped files of the tree: every file whose
   * name is not skipped and that does not lie under a skipped directory, each once.
   */
  lemma {:induction false} WalkRecordsUnskippedFiles(rel: String, entries: seq<Node>)
    ensures multiset(Walk(rel, entries).files) == EntriesFiles(rel, entries)
    decreases entries
  {
    if |entries| > 0 {
      var e, rest := entries[0], entries[1..];
      WalkRecordsUnskippedFiles(rel, rest);
      if e.Dir? && !ShouldSkip(e.name) {
        WalkRecordsUnskippedFiles(Join(rel, e.name), e.children);
      }
      assert NodeFiles(rel, e) == multiset(FileHere(rel, e) + WalkInto(rel, e).files);
      MultisetOfFour(FileHere(rel, e), FilesHere(rel, rest), WalkInto(rel, e).files, Descend(rel, rest).files);
    }
  }

  /**
   * The walk records exactly the unskipped directories of the tree, each once;
   * a skipped directory is neither recorded nor descended into.
   */
  lemma {:induction false} WalkRecordsUnskippedDirs(rel: String, entries: seq<Node>)
    ensures multiset(Walk(rel, entries).dirs) == EntriesDirs(rel, entries)
    decreases entries
  {
    if |entries| > 0 {
      var e, rest := entries[0], entries[1..];
      WalkRecordsUnskippedDirs(rel, rest);
      if e.Dir? && !ShouldSkip(e.name) {
        WalkRecordsUnskippedDirs(Join(rel, e.name), e.children);
      }
      assert NodeDirs(rel, e) == multiset(DirHere(rel, e) + WalkInto(rel, e).dirs);
      MultisetOfFour(DirHere(rel, e), DirsHere(rel, rest), WalkInto(rel, e).dirs, Descend(rel, rest).dirs);
    }
  }

  /** The recorded counts are the numbers of unskipped files and directories. */
  lemma WalkCounts(rel: String, entries: seq<Node>)
    ensures |Walk(rel, entries).files| == |EntriesFiles(rel, entries)|
    ensures |Walk(rel, entries).dirs| == |EntriesDirs(rel, entries)|
  {
    WalkRecordsUnskippedFiles(rel, entries);
    WalkRecordsUnskippedDirs(rel, entries);
  }

  /** Removing a skipped entry from a directory does not change what the walk records. */
  lemma SkippedEntryIsInvisible(rel: String, before: seq<Node>, e: Node, after: seq<Node>)
    requires ShouldSkip(e.name)
    ensures Walk(rel, before + [e] + after) == Walk(rel, before + after)
  {
    SkippedHereInvisible(rel, before, e, after);
    SkippedDescendInvisible(rel, before, e, after);
  }

  lemma {:induction false} SkippedHereInvisible(rel: String, before: seq<Node>, e: Node, after: seq<Node>)
    requires ShouldSkip(e.name)
    ensures FilesHere(rel, before + [e] + after) == FilesHere(rel, before + after)
    ensures DirsHere(rel, before + [e] + after) == DirsHere(rel, before + after)
    decreases |before|
  {
    var s, t := before + [e] + after, before + after;
    if |before| == 0 {
      assert s[0] == e && s[1..] == after && t == after;
      assert FilesHere(rel, s) == FileHere(rel, e) + FilesHere(rel, s[1..]);
      assert DirsHere(rel, s) == DirHere(rel, e) + DirsHere(rel, s[1..]);
    } else {
      SkippedHereInvisible(rel, before[1..], e, after);
      assert s[0] == t[0] && s[1..] == before[1..] + [e] + after && t[1..] == before[1..] + after;
    }
  }

  lemma {:induction false} SkippedDescendInvisible(rel: String, before: seq<Node>, e: Node, after: seq<Node>)
    requires ShouldSkip(e.name)
    ensures Descend(rel, before + [e] + after) == Descend(rel, before + after)
    decreases |before|
  {
    var s, t := before + [e] + after, before + after;
    if |before| == 0 {
      assert s[0] == e && s[1..] == after && t == after;
      var rest := Descend(rel, after);
      assert Descend(rel, s) == Listing([] + rest.files, [] + rest.dirs);
    } else {
      SkippedDescendInvisible(rel, before[1..], e, after);
      assert s[0] == t[0] && s[1..] == before[1..] + [e] + after && t[1..] == before[1..] + after;
    }
  }

  // ---------------------------------------------------------------------------
  // Project types

  /** `PROJECT_INDICATORS`, in the dictionary's insertion order. */
  const ProjectIndicators: seq<(String, seq<String>)> := [
    ("node", ["package.json", "package-lock.json", "node_modules/"]),
    ("python", ["requirements.txt", "setup.py", "pyproject.toml", "__pycache__/"]),
    ("java", ["pom.xml", "build.gradle", "build.gradle.kts", "gradlew"]),
    ("rust", ["Cargo.toml", "Cargo.lock", "target/"]),
    ("go", ["go.mod", "go.sum"]),
    ("ruby", ["Gemfile", "Gemfile.lock"]),
    ("php", ["composer.json", "composer.lock"]),
    ("csharp", ["*.csproj", "*.sln"])
  ]

  /** The position of a project type in `PROJECT_INDICATORS`; 8 for any other string. */
  function TypeRank(t: String): nat {
    if t == "node" then 0
    else if t == "python" then 1
    else if t == "java" then 2
    else if t == "rust" then 3
    else if t == "go" then 4
    else if t == "ruby" then 5
    else if t == "php" then 6
    else if t == "csharp" then 7
    else 8
  }

  lemma TypeRanks()
    ensures forall i :: 0 <= i < |ProjectIndicators| ==> TypeRank(ProjectIndicators[i].0) == i
  {
  }

  predicate SomeDirStartsWith(dirs: seq<String>, p: String) {
    exists d :: d in dirs && StartsWith(d, p)
  }

  predicate SomeFileEndsWith(files: seq<String>, p: String) {
    exists f :: f in files && EndsWith(f, p)
  }

  /** An indicator ending in `/` names a directory. */
  predicate IsDirIndicator(ind: String) {
    |ind| > 0 && ind[|ind| - 1] == '/'
  }

  /** An indicator starting with `*` is a file-name pattern. */
  predicate IsStarIndicator(ind: String) {
    |ind| > 0 && ind[0] == '*'
  }

  /** One indicator tested as the inner loop of `_detect_project_types` does. */
  predicate IndicatorMatches(ind: String, files: seq<String>, dirs: seq<String>) {
    if IsDirIndicator(ind) then SomeDirStartsWith(dirs, ind[..|ind| - 1])
    else if IsStarIndicator(ind) then SomeFileEndsWith(files, ind[1..])
    else ind in files || SomeFileEndsWith(files, ind)
  }

  /**
   * A directory indicator matches by directory prefix; every other indicator
   * matches by file suffix (the exact-name test is the special case of a suffix).
   */
  lemma IndicatorMatchesIff(ind: String, files: seq<String>, dirs: seq<String>)
    ensures IndicatorMatches(ind, files, dirs) <==>
      if IsDirIndicator(ind) then SomeDirStartsWith(dirs, ind[..|ind| - 1])
      else SomeFileEndsWith(files, if IsStarIndicator(ind) then ind[1..] else ind)
  {
    if ind in files {
      assert EndsWith(ind, ind);
    }
  }

  /** The inner loop over one type's indicators: stops (`break`) at the first match. */
  predicate AnyIndicatorMatches(inds: seq<String>, files: seq<String>, dirs: seq<String>) {
    |inds| > 0 && (IndicatorMatches(inds[0], files, dirs) || AnyIndicatorMatches(inds[1..], files, dirs))
  }

  lemma {:induction false} AnyIndicatorMatchesIff(inds: seq<String>, files: seq<String>, dirs: seq<String>)
    ensures AnyIndicatorMatches(inds, files, dirs) <==> exists j :: 0 <= j < |inds| && IndicatorMatches(inds[j], files, dirs)
  {
    if |inds| > 0 {
      AnyIndicatorMatchesIff(inds[1..], files, dirs);
      assert forall j :: 0 < j < |inds| ==> inds[j] == inds[1..][j - 1];
    }
  }

  /** Type `i` of the table is detected. */
  predicate TypeDetected(i: int, files: seq<String>, dirs: seq<String>)
    requires 0 <= i < |ProjectIndicators|
  {
    AnyIndicatorMatches(ProjectIndicators[i].1, files, dirs)
  }

  /**
   * The outer loop of `_detect_project_types` from table position `k` on: the
   * detected types in table order, each at most once.
   */
  function TypesFrom(k: nat, files: seq<String>, dirs: seq<String>): (r: seq<String>)
    requires k <= |ProjectIndicators|
    ensures forall t :: t in r <==>
      exists i :: k <= i < |ProjectIndicators| && ProjectIndicators[i].0 == t && TypeDetected(i, files, dirs)
    ensures forall i :: 0 <= i < |r| ==> k <= TypeRank(r[i]) < |ProjectIndicators|
    ensures forall i, j :: 0 <= i < j < |r| ==> TypeRank(r[i]) < TypeRank(r[j])
    decreases |ProjectIndicators| - k
  {
    TypeRanks();
    if k == |ProjectIndicators| then []
    else
      var here := if TypeDetected(k, files, dirs) then [ProjectIndicators[k].0] else [];
      here + TypesFrom(k + 1, files, dirs)
  }

  /**
   * `_detect_project_types(files, directories)`: a duplicate-free list in the
   * order node, python, java, rust, go, ruby, php, csharp, holding a type iff one
   * of its indicators matches.
   */
  function DetectProjectTypes(files: seq<String>, dirs: seq<String>): (r: seq<String>)
    ensures forall t :: t in r <==>
      exists i :: 0 <= i < |ProjectIndicators| && ProjectIndicators[i].0 == t && TypeDetected(i, files, dirs)
    ensures forall i, j :: 0 <= i < j < |r| ==> r[i] != r[j]
    ensures forall i, j :: 0 <= i < j < |r| ==> TypeRank(r[i]) < TypeRank(r[j])
    ensures "unknown" !in r
  {
    TypesFrom(0, files, dirs)
  }

  /** A `package.json` anywhere in the tree makes a node project. */
  lemma PackageJsonMeansNode(files: seq<String>, dirs: seq<String>)
    requires "package.json" in files
    ensures "node" in DetectProjectTypes(files, dirs)
  {
    assert IndicatorMatches(ProjectIndicators[0].1[0], files, dirs);
    assert TypeDetected(0, files, dirs);
  }

  /** A `requirements.txt` anywhere in the tree makes a python project. */
  lemma RequirementsMeansPython(files: seq<String>, dirs: seq<String>)
    requires "requirements.txt" in files
    ensures "python" in DetectProjectTypes(files, dirs)
  {
    assert IndicatorMatches(ProjectIndicators[1].1[0], files, dirs);
    assert TypeDetected(1, files, dirs);
  }

  /** No indicator matches when there are no paths. */
  lemma {:induction false} NothingMatchesWithoutPaths(inds: seq<String>)
    ensures !AnyIndicatorMatches(inds, [], [])
  {
    if |inds| > 0 {
      NothingMatchesWithoutPaths(inds[1..]);
    }
  }

  lemma {:induction false} NoTypesFromWithoutPaths(k: nat)
    requires k <= |ProjectIndicators|
    ensures TypesFrom(k, [], []) == []
    decreases |ProjectIndicators| - k
  {
    if k < |ProjectIndicators| {
      NothingMatchesWithoutPaths(ProjectIndicators[k].1);
      NoTypesFromWithoutPaths(k + 1);
    }
  }

  /** An empty tree has no project type. */
  lemma NoTypesWithoutPaths()
    ensures DetectProjectTypes([], []) == []
  {
    NoTypesFromWithoutPaths(0);
  }

  // ---------------------------------------------------------------------------
  // Frameworks

  /** `FRAMEWORK_INDICATORS`, in the dictionary's insertion order. */
  const FrameworkIndicators: seq<(String, seq<String>)> := [
    ("react", ["react", "@types/react"]),
    ("vue", ["vue", "@vue/"]),
    ("angular", ["@angular/"]),
    ("express", ["express"]),
    ("django", ["django", "Django"]),
    ("flask", ["flask", "Flask"]),
    ("spring", ["spring-boot", "org.springframework"]),
    ("laravel", ["laravel/framework"])
  ]

  /** `indicator in s` for some `s` among the subjects (dependency keys, or the requirements text alone). */
  predicate SomeSubjectContains(subjects: seq<String>, ind: String) {
    exists s :: s in subjects && Contains(s, ind)
  }

  /** The inner loop over one framework's indicators, stopping at the first that is found. */
  predicate AnyIndicatorFound(inds: seq<String>, subjects: seq<String>) {
    |inds| > 0 && (SomeSubjectContains(subjects, inds[0]) || AnyIndicatorFound(inds[1..], subjects))
  }

  /** One of the indicators is a substring of one of the subjects. */
  predicate FrameworkFound(inds: seq<String>, subjects: seq<String>) {
    exists j :: 0 <= j < |inds| && SomeSubjectContains(subjects, inds[j])
  }

  lemma {:induction false} AnyIndicatorFoundIff(inds: seq<String>, subjects: seq<String>)
    ensures AnyIndicatorFound(inds, subjects) <==> FrameworkFound(inds, subjects)
  {
    if |inds| > 0 {
      AnyIndicatorFoundIff(inds[1..], subjects);
      assert forall j :: 0 < j < |inds| ==> inds[j] == inds[1..][j - 1];
    }
  }

  /** The outer loop over the framework table from position `k`, for one manifest's subjects. */
  function FrameworksFrom(k: nat, subjects: seq<String>): (r: seq<String>)
    requires k <= |FrameworkIndicators|
    ensures forall f :: f in r <==>
      exists i :: k <= i < |FrameworkIndicators| && FrameworkIndicators[i].0 == f &&
        FrameworkFound(FrameworkIndicators[i].1, subjects)
    decreases |FrameworkIndicators| - k
  {
    if k == |FrameworkIndicators| then []
    else
      AnyIndicatorFoundIff(FrameworkIndicators[k].1, subjects);
      var here := if AnyIndicatorFound(FrameworkIndicators[k].1, subjects) then [FrameworkIndicators[k].0] else [];
      here + FrameworksFrom(k + 1, subjects)
  }

  /**
   * The matching part of `_detect_frameworks`: `dependencies` are the keys of the
   * merged `dependencies`/`devDependencies` of a readable `package.json`, and
   * `requirements` the text of a readable `requirements.txt`; `None` stands for
   * a manifest that is absent, fails with an `IOError`, or is not valid JSON
   * (the two failures the source catches). A manifest that is not UTF-8 raises
   * `UnicodeDecodeError` in the source and has no counterpart here.
   */
  function DetectFrameworks(dependencies: Option<seq<String>>, requirements: Option<String>): (r: set<String>)
    ensures forall f :: f in r <==>
      exists i :: 0 <= i < |FrameworkIndicators| && FrameworkIndicators[i].0 == f &&
        ((dependencies.Some? && FrameworkFound(FrameworkIndicators[i].1, dependencies.value)) ||
         (requirements.Some? && FrameworkFound(FrameworkIndicators[i].1, [requirements.value])))
  {
    var fromPackage := if dependencies.Some? then FrameworksFrom(0, dependencies.value) else [];
    var fromRequirements := if requirements.Some? then FrameworksFrom(0, [requirements.value]) else [];
    set f | f in fromPackage + fromRequirements
  }

  /** A `react` dependency gives React; `Django>=4.0.0` in the requirements gives Django. */
  lemma FrameworkExamples()
    ensures "react" in DetectFrameworks(Some(["react"]), None)
    ensures "django" in DetectFrameworks(None, Some("Django>=4.0.0"))
  {
    ContainsPrefix("react", "react");
    assert SomeSubjectContains(["react"], FrameworkIndicators[0].1[0]);
    assert FrameworkFound(FrameworkIndicators[0].1, ["react"]);
    ContainsPrefix("Django>=4.0.0", "Django");
    assert SomeSubjectContains(["Django>=4.0.0"], FrameworkIndicators[4].1[1]);
    assert FrameworkFound(FrameworkIndicators[4].1, ["Django>=4.0.0"]);
  }

  // ---------------------------------------------------------------------------
  // Setup flags

  /** `ci_indicators` of `_check_ci_setup`, in source order. */
  const CiIndicators: seq<String> := [
    ".github/workflows", ".gitlab-ci.yml", ".circleci/config.yml", "azure-pipelines.yml", "Jenkinsfile"
  ]

  /** One CI indicator: a file (ends in `.yml` or `file`) matched by suffix, else a directory by prefix. */
  predicate CiIndicatorMatches(ind: String, files: seq<String>, dirs: seq<String>) {
    if EndsWith(ind, ".yml") || EndsWith(ind, "file") then ind in files || SomeFileEndsWith(files, ind)
    else SomeDirStartsWith(dirs, ind)
  }

  /** The loop of `_check_ci_setup`, true at the first indicator that matches. */
  predicate CiFrom(inds: seq<String>, files: seq<String>, dirs: seq<String>) {
    |inds| > 0 && (CiIndicatorMatches(inds[0], files, dirs) || CiFrom(inds[1..], files, dirs))
  }

  /** `_check_ci_setup(files, directories)` */
  predicate HasCi(files: seq<String>, dirs: seq<String>) {
    CiFrom(CiIndicators, files, dirs)
  }

  lemma {:induction false} CiFromIff(inds: seq<String>, files: seq<String>, dirs: seq<String>)
    ensures CiFrom(inds, files, dirs) <==> exists j :: 0 <= j < |inds| && CiIndicatorMatches(inds[j], files, dirs)
  {
    if |inds| > 0 {
      CiFromIff(inds[1..], files, dirs);
      assert forall j :: 0 < j < |inds| ==> inds[j] == inds[1..][j - 1];
    }
  }

  /** A file indicator matched by suffix; the exact-name test is the special case. */
  lemma CiFileIndicator(ind: String, files: seq<String>, dirs: seq<String>)
    requires EndsWith(ind, ".yml") || EndsWith(ind, "file")
    ensures CiIndicatorMatches(ind, files, dirs) <==> SomeFileEndsWith(files, ind)
  {
    if ind in files {
      assert EndsWith(ind, ind);
    }
  }

  /**
   * CI is configured iff some file ends with one of the four CI file names or
   * some directory starts with `.github/workflows`.
   */
  lemma HasCiIff(files: seq<String>, dirs: seq<String>)
    ensures HasCi(files, dirs) <==>
      SomeFileEndsWith(files, ".gitlab-ci.yml") || SomeFileEndsWith(files, ".circleci/config.yml") ||
      SomeFileEndsWith(files, "azure-pipelines.yml") || SomeFileEndsWith(files, "Jenkinsfile") ||
      SomeDirStartsWith(dirs, ".github/workflows")
  {
    var c := CiIndicators;
    CiFromIff(c, files, dirs);
    assert c[0][|c[0]| - 4..] == "lows" && c[0][|c[0]| - 4..] != "file";
    assert CiIndicatorMatches(c[0], files, dirs) <==> SomeDirStartsWith(dirs, ".github/workflows");
    assert c[1][|c[1]| - 4..] == ".yml" && c[2][|c[2]| - 4..] == ".yml" && c[3][|c[3]| - 4..] == ".yml";
    assert c[4][|c[4]| - 4..] == "file";
    CiFileIndicator(c[1], files, dirs);
    CiFileIndicator(c[2], files, dirs);
    CiFileIndicator(c[3], files, dirs);
    CiFileIndicator(c[4], files, dirs);
  }

  /** The test-directory indicators of `_check_test_setup`. */
  const TestIndicators: seq<String> := ["test", "tests", "spec", "__tests__"]

  /** `_check_test_setup(directories)`: some lower-cased directory path contains an indicator. */
  predicate HasTests(dirs: seq<String>) {
    exists d :: d in dirs && exists k :: 0 <= k < |TestIndicators| && Contains(Lower(d), TestIndicators[k])
  }

  /** Tests are set up iff some directory path, lower-cased, contains `test` or `spec`. */
  lemma HasTestsIff(dirs: seq<String>)
    ensures HasTests(dirs) <==> exists d :: d in dirs && (Contains(Lower(d), "test") || Contains(Lower(d), "spec"))
  {
    ContainsPrefix("tests", "test");
    assert OccursAt("__tests__", "test", 2);
    OccursContains("__tests__", "test", 2);
    forall d | d in dirs && Contains(Lower(d), "tests") ensures Contains(Lower(d), "test") {
      ContainsInfix(Lower(d), "tests", "test");
    }
    forall d | d in dirs && Contains(Lower(d), "__tests__") ensures Contains(Lower(d), "test") {
      ContainsInfix(Lower(d), "__tests__", "test");
    }
    forall d | d in dirs && Contains(Lower(d), "test") ensures Contains(Lower(d), TestIndicators[0]) { }
    forall d | d in dirs && Contains(Lower(d), "spec") ensures Contains(Lower(d), TestIndicators[2]) { }
  }

  // ---------------------------------------------------------------------------
  // The scan and the project summary

  /** What `scan_structure` returns. */
  datatype ProjectStructure = ProjectStructure(
    projectName: String,
    files: seq<String>,
    dirs: seq<String>,
    fileCount: nat,
    dirCount: nat,
    projectTypes: seq<String>,
    frameworks: set<String>,
    hasGit: bool,
    hasCi: bool,
    hasTests: bool)

  /** The manifests `_detect_frameworks` reads, as already decoded by the caller. */
  datatype Manifests = Manifests(dependencies: Option<seq<String>>, requirements: Option<String>)

  /**
   * `scan_structure` over the tree `root` of project `name`; `gitPresent` is the
   * answer of the `.git` probe.
   */
  function ScanStructure(name: String, root: seq<Node>, gitPresent: bool, manifests: Manifests): (s: ProjectStructure)
    ensures s.fileCount == |s.files| == |EntriesFiles("", root)|
    ensures s.dirCount == |s.dirs| == |EntriesDirs("", root)|
    ensures multiset(s.files) == EntriesFiles("", root) && multiset(s.dirs) == EntriesDirs("", root)
    ensures |root| == 0 ==> s.fileCount == 0 && s.dirCount == 0 && s.projectTypes == []
    ensures forall i, j :: 0 <= i < j < |s.projectTypes| ==> TypeRank(s.projectTypes[i]) < TypeRank(s.projectTypes[j])
    ensures "unknown" !in s.projectTypes
    ensures s.projectName == name
    ensures s.files == Walk("", root).files && s.dirs == Walk("", root).dirs
    ensures s.projectTypes == DetectProjectTypes(s.files, s.dirs)
    ensures s.frameworks == DetectFrameworks(manifests.dependencies, manifests.requirements)
    ensures s.hasGit == gitPresent && s.hasCi == HasCi(s.files, s.dirs) && s.hasTests == HasTests(s.dirs)
  {
    var listing := Walk("", root);
    WalkCounts("", root);
    WalkRecordsUnskippedFiles("", root);
    WalkRecordsUnskippedDirs("", root);
    NoTypesWithoutPaths();
    ProjectStructure(
      name, listing.files, listing.dirs, |listing.files|, |listing.dirs|,
      DetectProjectTypes(listing.files, listing.dirs),
      DetectFrameworks(manifests.dependencies, manifests.requirements),
      gitPresent, HasCi(listing.files, listing.dirs), HasTests(listing.dirs))
  }

  /** What `get_project_info` returns. */
  datatype ProjectInfo = ProjectInfo(
    name: String,
    primaryType: String,
    types: seq<String>,
    frameworks: set<String>,
    fileTotal: nat,
    dirTotal: nat,
    git: bool,
    ci: bool,
    tests: bool)

  /**
   * The summary `get_project_info` builds from one scan: the primary type is the
   * first detected type, which is the earliest in table order, or `unknown`
   * exactly when no type was detected.
   */
  function InfoOf(s: ProjectStructure): (info: ProjectInfo)
    requires "unknown" !in s.projectTypes
    requires forall i, j :: 0 <= i < j < |s.projectTypes| ==> TypeRank(s.projectTypes[i]) < TypeRank(s.projectTypes[j])
    ensures info.types == s.projectTypes
    ensures info.primaryType == "unknown" <==> |info.types| == 0
    ensures |info.types| > 0 ==>
      (info.primaryType in info.types && forall t :: t in info.types ==> TypeRank(info.primaryType) <= TypeRank(t))
    ensures |info.types| > 0 ==> info.primaryType == info.types[0]
    ensures info.fileTotal == s.fileCount && info.dirTotal == s.dirCount
    ensures info.name == s.projectName && info.frameworks == s.frameworks
    ensures info.git == s.hasGit && info.ci == s.hasCi && info.tests == s.hasTests
  {
    var t := s.projectTypes;
    assert forall i :: 0 < i < |t| ==> TypeRank(t[0]) < TypeRank(t[i]);
    ProjectInfo(
      s.projectName, if |t| > 0 then t[0] else "unknown", t, s.frameworks,
      s.fileCount, s.dirCount, s.hasGit, s.hasCi, s.hasTests)
  }

  /** `get_project_info`, which scans the project itself. */
  function GetProjectInfo(name: String, root: seq<Node>, gitPresent: bool, manifests: Manifests): (info: ProjectInfo)
    ensures info.primaryType == "unknown" <==> |info.types| == 0
    ensures info.fileTotal == |EntriesFiles("", root)| && info.dirTotal == |EntriesDirs("", root)|
    ensures info.types == DetectProjectTypes(Walk("", root).files, Walk("", root).dirs)
    ensures |info.types| > 0 ==> info.primaryType == info.types[0]
    ensures info.name == name && info.git == gitPresent
    ensures info.frameworks == DetectFrameworks(manifests.dependencies, manifests.requirements)
    ensures info.ci == HasCi(Walk("", root).files, Walk("", root).dirs) && info.tests == HasTests(Walk("", root).dirs)
  {
    InfoOf(ScanStructure(name, root, gitPresent, manifests))
  }

  /** The empty project records nothing. */
  lemma EmptyProjectScan(name: String, gitPresent: bool, manifests: Manifests)
    ensures ScanStructure(name, [], gitPresent, manifests).fileCount == 0
    ensures ScanStructure(name, [], gitPresent, manifests).dirCount == 0
    ensures ScanStructure(name, [], gitPresent, manifests).projectTypes == []
  {
  }

  /** A root holding one kept, empty directory records just that directory. */
  lemma OneKeptDirectory(name: String)
    requires !ShouldSkip(name)
    ensures Walk("", [Dir(name, [])]).dirs == [name]
  {
    var d := Dir(name, []);
    assert DirsHere("", [d]) == [name] + DirsHere("", []);
    assert Descend("", [d]).dirs == Walk(name, []).dirs + Descend("", []).dirs;
  }

  /** Skipped directories ahead of a kept one leave only the kept one recorded. */
  lemma SkippedThenKept(a: String, b: String, c: String, name: String)
    requires ShouldSkip(a) && ShouldSkip(b) && ShouldSkip(c) && !ShouldSkip(name)
    ensures Walk("", [Dir(a, []), Dir(b, []), Dir(c, []), Dir(name, [])]).dirs == [name]
  {
    var e3 := [Dir(c, []), Dir(name, [])];
    var e2 := [Dir(b, [])] + e3;
    var e1 := [Dir(a, [])] + e2;
    SkippedEntryIsInvisible("", [], e1[0], e2);
    assert [] + [e1[0]] + e2 == e1;
    SkippedEntryIsInvisible("", [], e2[0], e3);
    assert [] + [e2[0]] + e3 == e2;
    SkippedEntryIsInvisible("", [], e3[0], [Dir(name, [])]);
    assert [] + [e3[0]] + [Dir(name, [])] == e3;
    assert [] + e2 == e2 && [] + e3 == e3 && [] + [Dir(name, [])] == [Dir(name, [])];
    assert e1 == [Dir(a, []), Dir(b, []), Dir(c, []), Dir(name, [])];
    OneKeptDirectory(name);
  }

  /** `.git` itself is skipped. */
  lemma GitIsSkipped()
    ensures ShouldSkip(".git")
  {
    ShouldSkipIff(".git");
    assert StartsWith(".git", SkipPrefixes[2]);
  }

  /** Of `node_modules`, `__pycache__`, `.git` and `src` only `src` is recorded. */
  lemma SkippedDirectoriesExample()
    ensures Walk("", [Dir("node_modules", []), Dir("__pycache__", []), Dir(".git", []), Dir("src", [])]).dirs == ["src"]
  {
    SkipExamples();
    GitIsSkipped();
    SrcIsKept();
    SkippedThenKept("node_modules", "__pycache__", ".git", "src");
  }
}
