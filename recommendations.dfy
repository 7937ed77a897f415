/** The recommendations route: it turns the latest stored assessment of a dataset into
    a list of quality issues, asks the language model for a cleaning strategy, falls
    back to a strategy built from the issues when the reply has no truthy `parsed` key,
    and stores what it returns. */
module Recommendations {
  import opened Wrappers
  import opened Strings
  import opened JsonData
  import opened Database
  import Frames
  import Completeness
  import Consistency
  import OllamaClient

  datatype IssueDetails = Stats(stat: Completeness.ColumnStat) | Note(text: string)

  /** One entry of `quality_issues`; `kind` is its 'type'. */
  datatype QualityIssue = QualityIssue(kind: string, column: string, severity: string, details: IssueDetails)

  /** The issue a column's statistics raise, if more than 10% of it is missing. */
  function CompletenessIssue(s: Completeness.ColumnStat): (r: Option<QualityIssue>)
    ensures r.Some? <==> s.missingPercentage > 10.0
    ensures r.Some? ==>
      && r.value.kind == "completeness" && r.value.column == s.name && r.value.details == Stats(s)
      && (r.value.severity == "high" <==> s.missingPercentage > 50.0)
      && (r.value.severity == "medium" <==> s.missingPercentage <= 50.0)
  {
    if s.missingPercentage > 10.0 then
      Some(QualityIssue("completeness", s.name, if s.missingPercentage > 50.0 then "high" else "medium", Stats(s)))
    else None
  }

  function CompletenessIssues(stats: seq<Completeness.ColumnStat>): seq<QualityIssue> {
    if stats == [] then []
    else CompletenessIssues(stats[..|stats| - 1]) + AsSeq(CompletenessIssue(stats[|stats| - 1]))
  }

  function ConsistencyIssue(f: Consistency.FormatIssue): QualityIssue {
    QualityIssue("consistency", f.column, "medium", Note("Format inconsistency detected"))
  }

  function ConsistencyIssues(format: seq<Consistency.FormatIssue>): seq<QualityIssue> {
    if format == [] then []
    else ConsistencyIssues(format[..|format| - 1]) + [ConsistencyIssue(format[|format| - 1])]
  }

  /** `quality_issues` for a stored report: completeness issues first, then one
      consistency issue per column with mixed formats. */
  function IssuesOf(r: QualityReport): seq<QualityIssue> {
    CompletenessIssues(r.completeness.columns) + ConsistencyIssues(r.consistency.formatConsistency)
  }

  /** The two loops that fill `quality_issues`. */
  method ExtractIssues(r: QualityReport) returns (issues: seq<QualityIssue>)
    ensures issues == IssuesOf(r)
  {
    var stats := r.completeness.columns;
    issues := [];
    for k := 0 to |stats|
      invariant issues == CompletenessIssues(stats[..k])
    {
      assert stats[..k + 1][..k] == stats[..k];
      var s := stats[k];
      if s.missingPercentage > 10.0 {
        issues := issues + [QualityIssue("completeness", s.name, if s.missingPercentage > 50.0 then "high" else "medium", Stats(s))];
      }
    }
    assert stats[..|stats|] == stats;
    var format := r.consistency.formatConsistency;
    ghost var done := issues;
    for k := 0 to |format|
      invariant issues == done + ConsistencyIssues(format[..k])
    {
      assert format[..k + 1][..k] == format[..k];
      issues := issues + [QualityIssue("consistency", format[k].column, "medium", Note("Format inconsistency detected"))];
    }
    assert format[..|format|] == format;
  }

  /** The completeness issues are one per column more than 10% missing, in column order,
      each the issue that column raises. */
  lemma {:induction false} CompletenessIssuesExact(stats: seq<Completeness.ColumnStat>)
    ensures var issues, flagged := CompletenessIssues(stats), Completeness.Flagged(stats, 10.0);
      && |issues| == |flagged|
      && forall i :: 0 <= i < |flagged| ==> Some(issues[i]) == CompletenessIssue(stats[flagged[i]])
  {
    if stats != [] {
      var init := stats[..|stats| - 1];
      CompletenessIssuesExact(init);
      assert forall k :: 0 <= k < |init| ==> init[k] == stats[k];
    }
  }

  /** One 'medium' consistency issue per column with mixed formats, in report order. */
  lemma {:induction false} ConsistencyIssuesExact(format: seq<Consistency.FormatIssue>)
    ensures var issues := ConsistencyIssues(format);
      && |issues| == |format|
      && forall i :: 0 <= i < |format| ==>
        issues[i].kind == "consistency" && issues[i].column == format[i].column && issues[i].severity == "medium"
  {
    if format != [] {
      ConsistencyIssuesExact(format[..|format| - 1]);
    }
  }

  /** Every completeness issue comes before every consistency issue. */
  lemma IssuesOrder(r: QualityReport)
    ensures var issues := IssuesOf(r);
      forall i, j :: 0 <= i < j < |issues| && issues[i].kind == "consistency" ==> issues[j].kind == "consistency"
  {
    CompletenessIssuesExact(r.completeness.columns);
    ConsistencyIssuesExact(r.consistency.formatConsistency);
  }

  /** The types of the issues, in order. */
  function Kinds(issues: seq<QualityIssue>): (r: seq<string>)
    ensures |r| == |issues|
    ensures forall i :: 0 <= i < |issues| ==> r[i] == issues[i].kind
  {
    seq(|issues|, i requires 0 <= i < |issues| => issues[i].kind)
  }

  /** `' '.join(issue['type'] for issue in quality_issues[:3])`, the knowledge query. */
  function Query(issues: seq<QualityIssue>): string {
    Join(Kinds(issues[..if |issues| < 3 then |issues| else 3]), " ")
  }

  /** An issue type the route produces. */
  predicate KnownKind(issue: QualityIssue) {
    issue.kind == "completeness" || issue.kind == "consistency"
  }

  /** The query is empty without issues; otherwise splitting it on spaces gives back the
      types of the first three issues. */
  lemma QueryWords(issues: seq<QualityIssue>)
    requires forall i :: 0 <= i < |issues| ==> KnownKind(issues[i])
    ensures issues == [] ==> Query(issues) == ""
    ensures issues != [] ==> Split(Query(issues), ' ') == Kinds(issues[..if |issues| < 3 then |issues| else 3])
  {
    if issues != [] {
      var parts := Kinds(issues[..if |issues| < 3 then |issues| else 3]);
      assert forall i :: 0 <= i < |parts| ==> parts[i] == issues[i].kind;
      SplitJoin(parts, ' ');
    }
  }

  /** The issues the route raises all have a known type. */
  lemma IssueKinds(r: QualityReport)
    ensures forall i :: 0 <= i < |IssuesOf(r)| ==> KnownKind(IssuesOf(r)[i])
  {
    CompletenessIssuesExact(r.completeness.columns);
    ConsistencyIssuesExact(r.consistency.formatConsistency);
  }

  function PriorityEntry(issue: QualityIssue): Json {
    JObj(map["issue" := JStr(issue.kind), "severity" := JStr(issue.severity), "impact" := JStr("medium")])
  }

  /** The strategy the route builds itself. */
  function Fallback(issues: seq<QualityIssue>): (o: Object)
    ensures o.Keys == {"priority_ranking", "strategies", "implementation_order", "success_metrics"}
  {
    map[
      "priority_ranking" := JArr(seq(|issues|, i requires 0 <= i < |issues| => PriorityEntry(issues[i]))),
      "strategies" := JArr([]),
      "implementation_order" := JArr(seq(|issues|, i requires 0 <= i < |issues| => JStr(issues[i].column))),
      "success_metrics" := JObj(map["data_quality_score" := JStr("improved")])]
  }

  /** The columns `implementation_order` lists, read back as text. */
  function Texts(items: seq<Json>): seq<string> {
    if items == [] then []
    else Texts(items[..|items| - 1]) + [if items[|items| - 1].JStr? then items[|items| - 1].s else ""]
  }

  /** The fallback ranks every issue once, in order, by its type and severity, and its
      implementation order is the issues' columns in the same order. */
  lemma FallbackContents(issues: seq<QualityIssue>)
    ensures var o := Fallback(issues);
      && o["priority_ranking"].JArr? && |o["priority_ranking"].items| == |issues|
      && (forall i :: 0 <= i < |issues| ==>
            var e := o["priority_ranking"].items[i];
            e.JObj? && e.fields["issue"] == JStr(issues[i].kind) && e.fields["severity"] == JStr(issues[i].severity))
      && o["implementation_order"].JArr?
      && Texts(o["implementation_order"].items) == seq(|issues|, i requires 0 <= i < |issues| => issues[i].column)
      && o["strategies"] == JArr([])
  {
    ImplementationOrder(issues);
  }

  lemma {:induction false} ImplementationOrder(issues: seq<QualityIssue>)
    ensures Texts(seq(|issues|, i requires 0 <= i < |issues| => JStr(issues[i].column)))
      == seq(|issues|, i requires 0 <= i < |issues| => issues[i].column)
  {
    if issues != [] {
      var init := issues[..|issues| - 1];
      ImplementationOrder(init);
      var items := seq(|issues|, i requires 0 <= i < |issues| => JStr(issues[i].column));
      assert items[..|items| - 1] == seq(|init|, i requires 0 <= i < |init| => JStr(init[i].column));
    }
  }

  /** `if not llm_response.get('parsed')`: the model's reply is kept only when it has a
      truthy `parsed` key. */
  function Strategy(reply: Object, issues: seq<QualityIssue>): (o: Object)
    ensures ("parsed" in reply && Truthy(reply["parsed"])) ==> o == reply
    ensures !("parsed" in reply && Truthy(reply["parsed"])) ==> o == Fallback(issues)
  {
    if "parsed" in reply && Truthy(reply["parsed"]) then reply else Fallback(issues)
  }

  /** A reply `_parse_response` could not decode always gives the fallback, and so does
      every decoded object that lacks a `parsed` key, such as a well-formed strategy. */
  lemma FallbackOnParsedReplies(text: string, decode: OllamaClient.Decoder, issues: seq<QualityIssue>)
    ensures OllamaClient.Candidate(text).None? ==>
      Strategy(OllamaClient.ParseResponse(text, decode), issues) == Fallback(issues)
    ensures (&& OllamaClient.Candidate(text).Some?
             && decode(OllamaClient.Candidate(text).value).None?) ==>
      Strategy(OllamaClient.ParseResponse(text, decode), issues) == Fallback(issues)
    ensures (&& OllamaClient.Candidate(text).Some?
             && decode(OllamaClient.Candidate(text).value).Some?
             && "parsed" !in decode(OllamaClient.Candidate(text).value).value) ==>
      Strategy(OllamaClient.ParseResponse(text, decode), issues) == Fallback(issues)
  {
    OllamaClient.ParsedFlag(text, decode);
  }

  /** The language model, given the dataset's table and the issues: the reply object
      `generate` hands to `generate_cleaning_strategy`. */
  type Model = (Frames.Frame, seq<QualityIssue>) -> Object

  /** `generate_recommendations(dataset_id)` at time `now`. */
  function GenerateRecommendations(db: Db, id: int, now: int, model: Model, decode: OllamaClient.Decoder): Result<(Object, Db)>
    requires Valid(db)
  {
    if id !in db.datasets then Err(404)
    else
      match LatestAssessment(db, id)
      case None => Err(404)
      case Some(a) =>
        var dataset := db.datasets[id];
        var issues := IssuesOf(a.report);
        match OllamaClient.CleaningStrategy(model(dataset.content, issues), decode)
        case None => Err(500)
        case Some(reply) =>
          var strategies := Strategy(reply, issues);
          Ok((strategies, Save(db, id, now, strategies)))
  }

  /** The database with `strategies` stored for dataset `id` at `now`. */
  function Save(db: Db, id: int, now: int, strategies: Object): Db
    requires Valid(db) && id in db.datasets
  {
    db.(
      datasets := db.datasets[id := db.datasets[id].(status := "recommendations_generated")],
      recommendations := db.recommendations + [Recommendation(id, now, strategies)])
  }

  /** Storing a strategy adds exactly one recommendation of that dataset, marks the
      dataset "recommendations_generated" and changes nothing else. */
  lemma SaveProperties(db: Db, id: int, now: int, strategies: Object)
    requires Valid(db) && id in db.datasets
    ensures var db' := Save(db, id, now, strategies);
      && Valid(db')
      && db'.datasets.Keys == db.datasets.Keys
      && db'.datasets[id].status == "recommendations_generated"
      && db'.datasets[id].content == db.datasets[id].content
      && (forall k :: k in db.datasets && k != id ==> db'.datasets[k] == db.datasets[k])
      && db'.assessments == db.assessments
      && db'.recommendations == db.recommendations + [Recommendation(id, now, strategies)]
  {
  }

  /** An unknown dataset, or one never assessed, gives 404; a model reply whose
      `response` is not text gives 500; in both cases nothing is stored. Otherwise the
      strategy returned is the one stored, built from the issues of the dataset's latest
      assessment and the model's reply text. */
  lemma GenerateRecommendationsProperties(db: Db, id: int, now: int, model: Model, decode: OllamaClient.Decoder)
    requires Valid(db)
    ensures (id !in db.datasets || forall i :: 0 <= i < |db.assessments| ==> db.assessments[i].datasetId != id) ==>
      && GenerateRecommendations(db, id, now, model, decode).Err?
      && GenerateRecommendations(db, id, now, model, decode).status == 404
    ensures (id in db.datasets && exists i :: 0 <= i < |db.assessments| && db.assessments[i].datasetId == id) ==>
      var reply := model(db.datasets[id].content, IssuesOf(LatestAssessment(db, id).value.report));
      && (GenerateRecommendations(db, id, now, model, decode).Err? <==> "response" in reply && !reply["response"].JStr?)
      && (GenerateRecommendations(db, id, now, model, decode).Err? ==> GenerateRecommendations(db, id, now, model, decode).status == 500)
    ensures GenerateRecommendations(db, id, now, model, decode).Ok? ==>
      var (strategies, db') := GenerateRecommendations(db, id, now, model, decode).value;
      var issues := IssuesOf(LatestAssessment(db, id).value.report);
      var text := GetText(model(db.datasets[id].content, issues), "response");
      && strategies == Strategy(OllamaClient.ParseResponse(text, decode), issues)
      && Valid(db')
      && db'.datasets.Keys == db.datasets.Keys
      && db'.datasets[id].status == "recommendations_generated"
      && db'.datasets[id].content == db.datasets[id].content
      && (forall k :: k in db.datasets && k != id ==> db'.datasets[k] == db.datasets[k])
      && db'.assessments == db.assessments
      && db'.recommendations == db.recommendations + [Recommendation(id, now, strategies)]
      && (strategies == Fallback(issues) || ("parsed" in strategies && Truthy(strategies["parsed"])))
  {
    if id in db.datasets && LatestAssessment(db, id).Some? {
      var issues := IssuesOf(LatestAssessment(db, id).value.report);
      var reply := model(db.datasets[id].content, issues);
      var parsed := OllamaClient.CleaningStrategy(reply, decode);
      if parsed.Some? {
        SaveProperties(db, id, now, Strategy(parsed.value, issues));
      }
    }
  }

  /** `get_recommendations(dataset_id)`: the strategies of the latest stored
      recommendation, or 404. */
  function GetRecommendations(db: Db, id: int): (r: Result<Object>)
    ensures r.Err? <==> forall i :: 0 <= i < |db.recommendations| ==> db.recommendations[i].datasetId != id
    ensures r.Err? ==> r.status == 404
    ensures r.Ok? ==> exists k ::
      && 0 <= k < |db.recommendations|
      && db.recommendations[k].datasetId == id
      && db.recommendations[k].strategies == r.value
      && forall i :: 0 <= i < |db.recommendations| && db.recommendations[i].datasetId == id ==>
           db.recommendations[i].timestamp <= db.recommendations[k].timestamp
  {
    match Latest(db.recommendations, RecommendationOwner, RecommendationTime, id)
    case Some(k) => Ok(db.recommendations[k].strategies)
    case None => Err(404)
  }

  /** Right after generating, reading back gives what was returned, unless an older
      recommendation of the dataset is dated later. */
  lemma ReadBack(db: Db, id: int, now: int, model: Model, decode: OllamaClient.Decoder)
    requires Valid(db)
    requires forall i :: 0 <= i < |db.recommendations| && db.recommendations[i].datasetId == id ==> db.recommendations[i].timestamp <= now
    ensures GenerateRecommendations(db, id, now, model, decode).Ok? ==>
      var (strategies, db') := GenerateRecommendations(db, id, now, model, decode).value;
      GetRecommendations(db', id) == Ok(strategies)
  {
    if GenerateRecommendations(db, id, now, model, decode).Ok? {
      var (strategies, db') := GenerateRecommendations(db, id, now, model, decode).value;
      LatestAfterAppend(db.recommendations, Recommendation(id, now, strategies), RecommendationOwner, RecommendationTime);
    }
  }
}
