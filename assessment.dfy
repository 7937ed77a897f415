/** The assessment route: it runs the four analyzers over a stored dataset, turns their
    reports into scores, stores the assessment and returns the same scores; plus the
    fixed list of progress steps it streams. */
module Assessment {
  import opened Wrappers
  import opened Frames
  import opened Database
  import Completeness
  import Consistency
  import Accuracy
  import Uniqueness

  /** The library computations the analyzers take as parameters: Python's `float()`
      acceptance test, pandas' `quantile`, `mean` and `std`. */
  datatype Libraries = Libraries(
    parsesAsFloat: string -> bool,
    quantile: Accuracy.Quantile,
    mean: Accuracy.Statistic,
    std: Accuracy.Statistic)

  /** `100 - len(format_consistency) * 10`, before clamping. */
  function RawConsistency(formatIssues: nat): int {
    100 - formatIssues * 10
  }

  /** `100 - len(range_violations) * 15`, before clamping. */
  function RawAccuracy(rangeViolations: nat): int {
    100 - rangeViolations * 15
  }

  /** `max(0, x)` */
  function Clamp(x: int): (r: nat)
    ensures x >= 0 ==> r == x
    ensures x < 0 ==> r == 0
  {
    if x < 0 then 0 else x
  }

  /** The scores of `assess_quality`: the overall score averages the four raw scores,
      while the consistency and accuracy scores it returns are clamped at zero. */
  function MetricsOf(r: QualityReport): QualityMetrics {
    var completeness := r.completeness.overall;
    var consistency := RawConsistency(|r.consistency.formatConsistency|);
    var accuracy := RawAccuracy(|r.accuracy.rangeViolations|);
    var uniqueness := r.uniqueness.duplicateRows.uniquenessScore;
    QualityMetrics(
      completeness,
      Clamp(consistency) as real,
      Clamp(accuracy) as real,
      uniqueness,
      (completeness + consistency as real + accuracy as real + uniqueness) / 4.0)
  }

  /** The reports of the four analyzers over one table. */
  function ReportFor(df: Frame, lib: Libraries): QualityReport
    requires WellFormed(df)
  {
    QualityReport(
      Completeness.ReportOf(df),
      Consistency.ReportOf(df, lib.parsesAsFloat),
      Accuracy.ReportOf(df, lib.quantile, lib.mean, lib.std),
      Uniqueness.ReportOf(df))
  }

  /** Consistency loses 10 points per column with mixed formats and accuracy 15 per
      column with range violations, neither going below 0; the completeness and
      uniqueness scores pass through from the reports. */
  lemma MetricsProperties(r: QualityReport)
    ensures var m := MetricsOf(r);
      && m.completeness == r.completeness.overall
      && m.uniqueness == r.uniqueness.duplicateRows.uniquenessScore
      && m.consistency == (if |r.consistency.formatConsistency| <= 10 then 100 - 10 * |r.consistency.formatConsistency| else 0) as real
      && m.accuracy == (if |r.accuracy.rangeViolations| <= 6 then 100 - 15 * |r.accuracy.rangeViolations| else 0) as real
      && 0.0 <= m.consistency <= 100.0 && 0.0 <= m.accuracy <= 100.0
  {
  }

  /** The completeness and uniqueness scores are the analyzers' overall completeness and
      duplicate-row uniqueness score, so every returned score lies in [0, 100]. */
  lemma MetricsInRange(df: Frame, lib: Libraries)
    requires WellFormed(df)
    ensures var m := MetricsOf(ReportFor(df, lib));
      && m.completeness == Completeness.OverallCompleteness(df)
      && m.uniqueness == Uniqueness.DuplicateRowsOf(df).uniquenessScore
      && 0.0 <= m.completeness <= 100.0 && 0.0 <= m.consistency <= 100.0
      && 0.0 <= m.accuracy <= 100.0 && 0.0 <= m.uniqueness <= 100.0
  {
    var r := ReportFor(df, lib);
    assert r.completeness.overall == Completeness.OverallCompleteness(df);
    assert r.uniqueness.duplicateRows == Uniqueness.DuplicateRowsOf(df);
    Uniqueness.DuplicateRowsProperties(df);
    MetricsProperties(r);
  }

  /** The overall score is the mean of the returned scores exactly when no clamp fired:
      at most 10 columns with mixed formats and at most 6 with range violations. With
      more, the overall score is below that mean. */
  lemma OverallUsesRawScores(r: QualityReport)
    ensures var m := MetricsOf(r);
      var f, v := |r.consistency.formatConsistency|, |r.accuracy.rangeViolations|;
      && (m.overall == (m.completeness + m.consistency + m.accuracy + m.uniqueness) / 4.0 <==> f <= 10 && v <= 6)
      && m.overall <= (m.completeness + m.consistency + m.accuracy + m.uniqueness) / 4.0
  {
    var f, v := |r.consistency.formatConsistency|, |r.accuracy.rangeViolations|;
    var c, a := RawConsistency(f), RawAccuracy(v);
    assert c < 0 <==> f > 10;
    assert a < 0 <==> v > 6;
    assert c <= Clamp(c) && a <= Clamp(a);
    assert (c == Clamp(c) && a == Clamp(a)) <==> (f <= 10 && v <= 6);
  }

  /** `assess_quality(dataset_id)` at time `now`: 404 for an unknown dataset; otherwise
      the assessment is stored, the dataset marked 'assessed', and the stored scores
      returned. */
  function AssessQuality(db: Db, id: int, now: int, lib: Libraries): Result<(QualityMetrics, Db)>
    requires Valid(db)
  {
    if id !in db.datasets then Err(404)
    else Ok(Record(db, id, now, ReportFor(db.datasets[id].content, lib)))
  }

  /** The scores of `report` and the database with it stored for dataset `id` at `now`. */
  function Record(db: Db, id: int, now: int, report: QualityReport): (QualityMetrics, Db)
    requires Valid(db) && id in db.datasets
  {
    var dataset := db.datasets[id];
    var metrics := MetricsOf(report);
    var stored := Assessment(id, now, metrics, report);
    (metrics, db.(
      datasets := db.datasets[id := dataset.(status := "assessed")],
      assessments := db.assessments + [stored]))
  }

  /** Storing a report adds exactly one assessment of that dataset, carrying the scores
      returned, marks the dataset 'assessed' and changes nothing else; the new assessment
      becomes the dataset's latest unless an older one is dated later. */
  lemma RecordProperties(db: Db, id: int, now: int, report: QualityReport)
    requires Valid(db) && id in db.datasets
    ensures var (metrics, db') := Record(db, id, now, report);
      && Valid(db')
      && db'.datasets.Keys == db.datasets.Keys
      && db'.datasets[id].status == "assessed"
      && db'.datasets[id].content == db.datasets[id].content
      && (forall k :: k in db.datasets && k != id ==> db'.datasets[k] == db.datasets[k])
      && |db'.assessments| == |db.assessments| + 1
      && db'.assessments[..|db.assessments|] == db.assessments
      && db'.assessments[|db.assessments|] == Assessment(id, now, metrics, report)
      && metrics == MetricsOf(report)
      && db'.recommendations == db.recommendations
    ensures (forall i :: 0 <= i < |db.assessments| && db.assessments[i].datasetId == id ==> db.assessments[i].timestamp <= now) ==>
      var (metrics, db') := Record(db, id, now, report);
      LatestAssessment(db', id) == Some(Assessment(id, now, metrics, report))
  {
    var (metrics, db') := Record(db, id, now, report);
    var stored := Assessment(id, now, metrics, report);
    assert db'.assessments == db.assessments + [stored];
    if forall i :: 0 <= i < |db.assessments| && db.assessments[i].datasetId == id ==> db.assessments[i].timestamp <= now {
      LatestAfterAppend(db.assessments, stored, AssessmentOwner, AssessmentTime);
    }
  }

  /** An unknown dataset gives 404 and nothing is stored; otherwise exactly one
      assessment of that dataset is added, carrying the scores returned, and it becomes
      the dataset's latest unless an older one is dated later. */
  lemma AssessQualityProperties(db: Db, id: int, now: int, lib: Libraries)
    requires Valid(db)
    ensures AssessQuality(db, id, now, lib).Err? <==> id !in db.datasets
    ensures AssessQuality(db, id, now, lib).Err? ==> AssessQuality(db, id, now, lib).status == 404
    ensures AssessQuality(db, id, now, lib).Ok? ==>
      var (metrics, db') := AssessQuality(db, id, now, lib).value;
      && Valid(db')
      && db'.datasets.Keys == db.datasets.Keys
      && db'.datasets[id].status == "assessed"
      && db'.datasets[id].content == db.datasets[id].content
      && (forall k :: k in db.datasets && k != id ==> db'.datasets[k] == db.datasets[k])
      && |db'.assessments| == |db.assessments| + 1
      && db'.assessments[..|db.assessments|] == db.assessments
      && db'.assessments[|db.assessments|].datasetId == id
      && db'.assessments[|db.assessments|].metrics == metrics
      && db'.recommendations == db.recommendations
    ensures (&& AssessQuality(db, id, now, lib).Ok?
             && forall i :: 0 <= i < |db.assessments| && db.assessments[i].datasetId == id ==> db.assessments[i].timestamp <= now) ==>
      var (metrics, db') := AssessQuality(db, id, now, lib).value;
      LatestAssessment(db', id) == Some(Assessment(id, now, metrics, db'.assessments[|db.assessments|].report))
  {
    if id in db.datasets {
      RecordProperties(db, id, now, ReportFor(db.datasets[id].content, lib));
    }
  }

  /** `get_quality_report(dataset_id)`: the stored report of the dataset's latest
      assessment, or 404 when the dataset has never been assessed. */
  function GetQualityReport(db: Db, id: int): (r: Result<QualityReport>)
    ensures r.Err? <==> forall i :: 0 <= i < |db.assessments| ==> db.assessments[i].datasetId != id
    ensures r.Err? ==> r.status == 404
    ensures r.Ok? ==> exists k ::
      && 0 <= k < |db.assessments|
      && db.assessments[k].datasetId == id
      && db.assessments[k].report == r.value
      && forall i :: 0 <= i < |db.assessments| && db.assessments[i].datasetId == id ==>
           db.assessments[i].timestamp <= db.assessments[k].timestamp
  {
    match LatestAssessment(db, id)
    case Some(a) => Ok(a.report)
    case None => Err(404)
  }

  /** Right after an assessment, the report route returns the report of the analyzers
      run over the stored table, unless an older assessment of the dataset is dated
      later. */
  lemma ReportReadBack(db: Db, id: int, now: int, lib: Libraries)
    requires Valid(db)
    requires forall i :: 0 <= i < |db.assessments| && db.assessments[i].datasetId == id ==> db.assessments[i].timestamp <= now
    ensures AssessQuality(db, id, now, lib).Ok? ==>
      GetQualityReport(AssessQuality(db, id, now, lib).value.1, id) == Ok(ReportFor(db.datasets[id].content, lib))
  {
    if id in db.datasets {
      AssessQualityProperties(db, id, now, lib);
    }
  }

  // ---------------------------------------------------------------- progress

  datatype Step = Step(step: string, progress: nat)

  /** The steps `progress_generator` streams, in order. */
  function ProgressSteps(): (steps: seq<Step>)
    ensures |steps| == 6
    ensures steps[0].progress > 0 && steps[|steps| - 1].progress == 100
    ensures forall i, j :: 0 <= i < j < |steps| ==> steps[i].progress < steps[j].progress
  {
    [ Step("Loading dataset", 10),
      Step("Analyzing completeness", 30),
      Step("Checking consistency", 50),
      Step("Validating accuracy", 70),
      Step("Computing uniqueness", 90),
      Step("Finalizing report", 100) ]
  }
}
