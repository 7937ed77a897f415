/** The rows the routes read and write: uploaded datasets, quality assessments and
    cleaning recommendations. A dataset row carries the table its file holds, so that
    reading the file is a lookup. */
module Database {
  import opened Wrappers
  import opened Frames
  import JsonData
  import Completeness
  import Consistency
  import Accuracy
  import Uniqueness

  datatype Dataset = Dataset(filename: string, uploadedAt: int, status: string, content: Frame)

  /** The four analyzer reports stored as `quality_report`. */
  datatype QualityReport = QualityReport(
    completeness: Completeness.Report,
    consistency: Consistency.Report,
    accuracy: Accuracy.Report,
    uniqueness: Uniqueness.Report)

  /** `QualityMetrics`, the scores an assessment returns and stores. */
  datatype QualityMetrics = QualityMetrics(
    completeness: real,
    consistency: real,
    accuracy: real,
    uniqueness: real,
    overall: real)

  datatype Assessment = Assessment(datasetId: int, timestamp: int, metrics: QualityMetrics, report: QualityReport)

  datatype Recommendation = Recommendation(datasetId: int, timestamp: int, strategies: JsonData.Object)

  datatype Db = Db(datasets: map<int, Dataset>, assessments: seq<Assessment>, recommendations: seq<Recommendation>)

  /** Every stored file parses into a well-formed table. */
  predicate Valid(db: Db) {
    forall id :: id in db.datasets ==> WellFormed(db.datasets[id].content)
  }

  /** `query(...).filter(owner == id).order_by(timestamp.desc()).first()`, as an index:
      among rows of that owner, one with the greatest timestamp (the later-stored row
      wins a tie). */
  function Latest<T>(xs: seq<T>, owner: T -> int, time: T -> int, id: int): (r: Option<nat>)
    ensures r.None? <==> forall i :: 0 <= i < |xs| ==> owner(xs[i]) != id
    ensures r.Some? ==> r.value < |xs| && owner(xs[r.value]) == id
    ensures r.Some? ==> forall i :: 0 <= i < |xs| && owner(xs[i]) == id ==> time(xs[i]) <= time(xs[r.value])
  {
    if xs == [] then None
    else
      var n := |xs| - 1;
      var prev := Latest(xs[..n], owner, time, id);
      assert forall i :: 0 <= i < n ==> xs[..n][i] == xs[i];
      if owner(xs[n]) == id && (prev.None? || time(xs[prev.value]) <= time(xs[n])) then Some(n)
      else prev
  }

  function AssessmentOwner(a: Assessment): int { a.datasetId }

  function AssessmentTime(a: Assessment): int { a.timestamp }

  function RecommendationOwner(r: Recommendation): int { r.datasetId }

  function RecommendationTime(r: Recommendation): int { r.timestamp }

  /** The latest assessment of a dataset, if it has one. */
  function LatestAssessment(db: Db, id: int): Option<Assessment> {
    var k := Latest(db.assessments, AssessmentOwner, AssessmentTime, id);
    if k.Some? then Some(db.assessments[k.value]) else None
  }

  /** Storing a new row for a dataset makes it that dataset's latest when no older row
      of the dataset carries a later timestamp. */
  lemma LatestAfterAppend<T>(xs: seq<T>, x: T, owner: T -> int, time: T -> int)
    requires forall i :: 0 <= i < |xs| && owner(xs[i]) == owner(x) ==> time(xs[i]) <= time(x)
    ensures Latest(xs + [x], owner, time, owner(x)) == Some(|xs|)
  {
    assert (xs + [x])[..|xs|] == xs;
  }

  /** A new row leaves every other dataset's latest row where it was. */
  lemma {:induction false} LatestOtherOwner<T>(xs: seq<T>, x: T, owner: T -> int, time: T -> int, id: int)
    requires owner(x) != id
    ensures Latest(xs + [x], owner, time, id) == Latest(xs, owner, time, id)
  {
    assert (xs + [x])[..|xs|] == xs;
  }
}
