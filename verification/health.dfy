/**
 * The project health score shared by `memory_integration.py` and
 * `generate-report.py`: 100 minus an issue-ratio penalty and per-severity
 * penalties, clamped at 0.
 */
module Health {
  import opened Wrappers

  /**
   * The `summary` counters the score reads; a missing key is `None`. A missing
   * `total_patterns` counts as 1, a missing counter as 0.
   */
  datatype SummaryFields = SummaryFields(
    totalPatterns: Option<int>,
    issuesFound: Option<int>,
    highSeverity: Option<int>,
    mediumSeverity: Option<int>)

  /** The `ZeroDivisionError` raised when `total_patterns` is present and 0. */
  datatype HealthError = ZeroDivision

  /**
   * `max(0, 100 - issues / total * 100 - high * 20 - medium * 10)`, with true
   * (not integer) division.
   */
  function Clamped(total: int, issues: int, high: int, medium: int): (h: real)
    requires total != 0
    ensures h >= 0.0
    ensures h >= 100.0 - (issues as real / total as real) * 100.0 - (high * 20) as real - (medium * 10) as real
    ensures total > 0 && issues >= 0 && high >= 0 && medium >= 0 ==> h <= 100.0
    ensures h > 0.0 ==> h + (issues as real / total as real) * 100.0 + (high * 20) as real + (medium * 10) as real == 100.0
  {
    DivNonNegative(issues as real, total as real);
    var raw := 100.0 - (issues as real / total as real) * 100.0 - (high * 20) as real - (medium * 10) as real;
    if raw > 0.0 then raw else 0.0
  }

  /** The clamped score read from a summary: a missing total counts as 1 and a missing counter as 0. */
  function ClampedScore(s: SummaryFields): (r: Result<real, HealthError>)
    ensures r.Failure? <==> s.totalPatterns == Some(0)
    ensures r.Success? ==> r.value >= 0.0
  {
    var total := s.totalPatterns.GetOr(1);
    if total == 0 then Failure(ZeroDivision)
    else Success(Clamped(total, s.issuesFound.GetOr(0), s.highSeverity.GetOr(0), s.mediumSeverity.GetOr(0)))
  }

  /** With a positive total and non-negative counts the score is 100 exactly when nothing was found. */
  lemma PerfectIff(total: int, issues: nat, high: nat, medium: nat)
    requires total > 0
    ensures Clamped(total, issues, high, medium) == 100.0 <==> issues == 0 && high == 0 && medium == 0
  {
    if issues > 0 {
      assert (issues as real / total as real) > 0.0;
    }
  }

  /**
   * For a fixed positive total, more issues, more high or more medium findings
   * never raise the score.
   */
  lemma Antitone(total: int, issues: int, high: int, medium: int, issues': int, high': int, medium': int)
    requires total > 0
    requires issues <= issues' && high <= high' && medium <= medium'
    ensures Clamped(total, issues', high', medium') <= Clamped(total, issues, high, medium)
  {
    assert issues as real / total as real <= issues' as real / total as real by {
      DivMonotone(issues as real, issues' as real, total as real);
    }
  }

  lemma DivNonNegative(a: real, t: real)
    ensures t > 0.0 && a >= 0.0 ==> a / t >= 0.0
  {
    if t > 0.0 && a >= 0.0 {
      DivMonotone(0.0, a, t);
    }
  }

  lemma DivMonotone(a: real, b: real, t: real)
    requires t > 0.0 && a <= b
    ensures a / t <= b / t
  {
    assert b / t - a / t == (b - a) / t;
  }

  /** Missing counters read as a perfect project out of one pattern. */
  lemma EmptySummaryIsPerfect()
    ensures ClampedScore(SummaryFields(None, None, None, None)) == Success(100.0)
  {
  }
}
