/**
 * `memory_integration.py`: the parameter records handed to the local memory
 * store, and the runtime check that every record is confined to the current
 * session.
 */
module Memory {
  import opened Wrappers
  import opened Text
  import opened Patterns
  import opened Health

  /** The state of a constructed `MemoryIntegration`: its session id is never empty. */
  type Integration = i: IntegrationState | i.sessionId != "" witness IntegrationState("session")

  datatype IntegrationState = IntegrationState(sessionId: String)

  /** What the memory integration raises. */
  datatype MemoryError =
    | NoSessionId
    | ModeViolation(got: Option<String>)
    | SessionIdRequired
    | HealthFailed(cause: HealthError)

  /**
   * `MemoryIntegration.__init__`: `session_id or discovered`, where `discovered`
   * stands for what the session-id file lookup returned. An absent or empty id
   * falls back to the discovered one; if that is absent or empty too,
   * construction raises `ValueError`.
   */
  function NewIntegration(explicit: Option<String>, discovered: Option<String>): (r: Result<Integration, MemoryError>)
    ensures r.Success? <==> (explicit.Some? && explicit.value != "") || (discovered.Some? && discovered.value != "")
    ensures r.Success? && explicit.Some? && explicit.value != "" ==> r.value.sessionId == explicit.value
    ensures r.Success? && (explicit.None? || explicit.value == "") ==> r.value.sessionId == discovered.value
    ensures r.Failure? ==> r.error == NoSessionId
  {
    var id := if explicit.Some? && explicit.value != "" then explicit else discovered;
    if id.Some? && id.value != "" then Success(IntegrationState(id.value)) else Failure(NoSessionId)
  }

  /**
   * `ensure_isolation` over the two fields it reads, `None` standing for a
   * missing key or a `None` value. The mode is checked first.
   */
  function EnsureIsolation(mode: Option<String>, sessionId: Option<String>): (r: Option<MemoryError>)
    ensures r.None? <==> mode == Some("session_only") && sessionId.Some? && sessionId.value != ""
    ensures mode != Some("session_only") ==> r == Some(ModeViolation(mode))
    ensures mode == Some("session_only") && r.Some? ==> r.value == SessionIdRequired
  {
    if mode != Some("session_only") then Some(ModeViolation(mode))
    else if sessionId.None? || sessionId.value == "" then Some(SessionIdRequired)
    else None
  }

  /** A record for `store_memory`; the content is kept as a value, not serialised. */
  datatype StoreParams<C> = StoreParams(
    content: C,
    tags: seq<String>,
    importance: int,
    source: String,
    domain: String,
    sessionFilterMode: String,
    sessionId: String)

  /** The isolation fields of a store record pass `ensure_isolation`. */
  predicate StoreIsolated<C>(p: StoreParams<C>) {
    EnsureIsolation(Some(p.sessionFilterMode), Some(p.sessionId)).None?
  }

  /** `create_isolated_params`: content, tags and importance passed through, the isolation fields fixed. */
  function CreateIsolatedParams<C>(m: Integration, content: C, tags: seq<String>, importance: int): (p: StoreParams<C>)
    ensures StoreIsolated(p)
    ensures p.sessionId == m.sessionId
    ensures p.content == content && p.tags == tags && p.importance == importance
    ensures p.source == "project-catalyst-analyzer" && p.domain == "project-catalyst"
  {
    StoreParams(content, tags, importance, "project-catalyst-analyzer", "project-catalyst", "session_only", m.sessionId)
  }

  /** The parts of the detector's results that `store_analysis` reads; a missing key is an empty list or counter. */
  datatype AnalysisInput = AnalysisInput(
    detections: seq<Detection>,
    summary: SummaryFields,
    recommendations: seq<RankedRecommendation>,
    projectTypes: seq<String>,
    frameworks: seq<String>)

  /** The stored content, without its `timestamp`. */
  datatype AnalysisContent = AnalysisContent(
    projectName: String,
    patternsDetected: nat,
    issuesFound: int,
    recommendations: seq<RankedRecommendation>,
    confidenceScores: map<String, String>,
    projectType: seq<String>,
    frameworks: seq<String>,
    healthScore: int)

  /** `{d['id']: d['confidence'] for d in detections}`: a later detection with the same id overrides an earlier one. */
  function ConfidenceScores(ds: seq<Detection>): map<String, String> {
    if |ds| == 0 then map[] else ConfidenceScores(ds[..|ds| - 1])[ds[|ds| - 1].id := ds[|ds| - 1].confidence]
  }

  /** The map has one key per detection id. */
  lemma {:induction false} ConfidenceScoresKeys(ds: seq<Detection>)
    ensures ConfidenceScores(ds).Keys == set d | d in ds :: d.id
  {
    if |ds| > 0 {
      var init := ds[..|ds| - 1];
      ConfidenceScoresKeys(init);
      assert forall d :: d in ds <==> d in init || d == ds[|ds| - 1];
    }
  }

  /** Each id holds the confidence of the last detection carrying it. */
  lemma {:induction false} ConfidenceScoresLastWins(ds: seq<Detection>, i: int)
    requires 0 <= i < |ds|
    requires forall j :: i < j < |ds| ==> ds[j].id != ds[i].id
    ensures ds[i].id in ConfidenceScores(ds) && ConfidenceScores(ds)[ds[i].id] == ds[i].confidence
  {
    var init := ds[..|ds| - 1];
    if i < |ds| - 1 {
      assert ds[i] == init[i];
      forall j | i < j < |init| ensures init[j].id != init[i].id {
        assert init[j] == ds[j];
      }
      ConfidenceScoresLastWins(init, i);
    }
  }

  /** `_calculate_health_score`: the clamped score truncated to an integer. */
  function HealthScore(s: SummaryFields): (r: Result<int, HealthError>)
    ensures r.Failure? <==> s.totalPatterns == Some(0)
    ensures r.Success? ==> 0 <= r.value && r.value as real <= ClampedScore(s).value < r.value as real + 1.0
  {
    match ClampedScore(s)
    case Success(h) => Success(h.Floor)
    case Failure(e) => Failure(e)
  }

  /** The tags every stored analysis carries. */
  function AnalysisTags(projectName: String): seq<String> {
    ["project-analysis", "catalyst", "pattern-detection", projectName]
  }

  /**
   * `store_analysis`: the content record, the fixed tags and importance 8, and
   * the isolation check, which a constructed object always passes. The only
   * failure is the division by a present zero `total_patterns`.
   */
  function StoreAnalysis(m: Integration, a: AnalysisInput, projectName: String): (r: Result<StoreParams<AnalysisContent>, MemoryError>)
    ensures r.Failure? <==> a.summary.totalPatterns == Some(0)
    ensures r.Failure? ==> r.error == HealthFailed(ZeroDivision)
    ensures r.Success? ==> StoreIsolated(r.value) && r.value.sessionId == m.sessionId
    ensures r.Success? ==> r.value.tags == AnalysisTags(projectName) && r.value.importance == 8
    ensures r.Success? ==> (r.value.content.projectName == projectName &&
      r.value.content.patternsDetected == |a.detections| &&
      r.value.content.issuesFound == a.summary.issuesFound.GetOr(0) &&
      r.value.content.recommendations == a.recommendations &&
      r.value.content.confidenceScores.Keys == (set d | d in a.detections :: d.id))
    ensures r.Success? ==> (r.value.content.confidenceScores == ConfidenceScores(a.detections) &&
      r.value.content.projectType == a.projectTypes && r.value.content.frameworks == a.frameworks &&
      r.value.content.healthScore == HealthScore(a.summary).value)
    ensures (r.Success? && a.summary.totalPatterns.GetOr(1) > 0 && a.summary.issuesFound.GetOr(0) >= 0 &&
      a.summary.highSeverity.GetOr(0) >= 0 && a.summary.mediumSeverity.GetOr(0) >= 0) ==>
      0 <= r.value.content.healthScore <= 100
  {
    match HealthScore(a.summary)
    case Failure(e) => Failure(HealthFailed(e))
    case Success(health) =>
      ConfidenceScoresKeys(a.detections);
      var content := AnalysisContent(
        projectName, |a.detections|, a.summary.issuesFound.GetOr(0), a.recommendations,
        ConfidenceScores(a.detections), a.projectTypes, a.frameworks, health);
      var p := CreateIsolatedParams(m, content, AnalysisTags(projectName), 8);
      match EnsureIsolation(Some(p.sessionFilterMode), Some(p.sessionId))
      case Some(e) => Failure(e)
      case None => Success(p)
  }

  /** A record for the memory search. */
  datatype SearchParams = SearchParams(
    query: String,
    tags: seq<String>,
    sessionFilterMode: String,
    sessionId: String,
    limit: int,
    responseFormat: String)

  /** `retrieve_analysis_history`: a search confined to the session, for the analyses of one project. */
  function RetrieveAnalysisHistory(m: Integration, projectName: String): (r: Result<SearchParams, MemoryError>)
    ensures r.Success?
    ensures EnsureIsolation(Some(r.value.sessionFilterMode), Some(r.value.sessionId)).None?
    ensures r.value.sessionId == m.sessionId
    ensures StartsWith(r.value.query, "project-analysis ") && EndsWith(r.value.query, projectName)
    ensures |r.value.query| == |"project-analysis "| + |projectName|
    ensures r.value.tags == ["project-analysis", projectName]
    ensures r.value.limit == 10 && r.value.responseFormat == "concise"
  {
    var p := SearchParams("project-analysis " + projectName, ["project-analysis", projectName], "session_only", m.sessionId, 10, "concise");
    match EnsureIsolation(Some(p.sessionFilterMode), Some(p.sessionId))
    case Some(e) => Failure(e)
    case None => Success(p)
  }

  // ---------------------------------------------------------------------------
  // Consequences

  /** Storing what the detector returned: the counters come straight from its summary. */
  lemma StoreDetectorResults(m: Integration, res: Results, projectName: String)
    ensures var a := AnalysisInput(res.detections, SummaryOf(res.summary), res.recommendations, res.projectTypes, res.frameworks);
      var r := StoreAnalysis(m, a, projectName);
      (r.Failure? <==> res.summary.totalPatterns == 0) &&
      (r.Success? ==> (r.value.content.patternsDetected == |res.detections| &&
        r.value.content.issuesFound == res.summary.issuesFound &&
        0 <= r.value.content.healthScore <= 100))
  {
  }

  /** The detector's summary as the counters the health score reads. */
  function SummaryOf(s: Summary): (f: SummaryFields)
    ensures f.totalPatterns == Some(s.totalPatterns as int) && f.issuesFound == Some(s.issuesFound as int)
    ensures f.highSeverity == Some(s.highSeverity as int) && f.mediumSeverity == Some(s.mediumSeverity as int)
  {
    SummaryFields(Some(s.totalPatterns), Some(s.issuesFound), Some(s.highSeverity), Some(s.mediumSeverity))
  }

  /** The four cases the health score's tests pin down. */
  lemma HealthScoreExamples()
    ensures HealthScore(SummaryFields(Some(10), Some(0), Some(0), Some(0))) == Success(100)
    ensures HealthScore(SummaryFields(Some(10), Some(1), Some(1), Some(0))) == Success(70)
    ensures HealthScore(SummaryFields(Some(10), Some(4), Some(1), Some(2))) == Success(20)
    ensures HealthScore(SummaryFields(Some(10), Some(10), Some(10), Some(0))) == Success(0)
    ensures HealthScore(SummaryFields(Some(13), Some(4), Some(1), Some(2))) == Success(29)
  {
    assert ClampedScore(SummaryFields(Some(13), Some(4), Some(1), Some(2))).value == 380.0 / 13.0;
  }

  /** The integer score is antitone in each counter, for a fixed positive total. */
  lemma HealthScoreAntitone(total: int, issues: int, high: int, medium: int, issues': int, high': int, medium': int)
    requires total > 0
    requires issues <= issues' && high <= high' && medium <= medium'
    ensures HealthScore(SummaryFields(Some(total), Some(issues'), Some(high'), Some(medium'))).value <=
      HealthScore(SummaryFields(Some(total), Some(issues), Some(high), Some(medium))).value
  {
    Antitone(total, issues, high, medium, issues', high', medium');
  }

  /** The isolation check's tests: a wrong mode and a missing session id are both refused, the mode first. */
  lemma IsolationExamples()
    ensures EnsureIsolation(Some("session_only"), Some("test-session-123")).None?
    ensures EnsureIsolation(Some("all"), Some("test-session-123")) == Some(ModeViolation(Some("all")))
    ensures EnsureIsolation(Some("session_only"), None) == Some(SessionIdRequired)
    ensures EnsureIsolation(None, None) == Some(ModeViolation(None))
  {
    assert "all" != "session_only" by {
      assert |"all"| != |"session_only"|;
    }
  }
}
