# Data quality platform core, modelled in Dafny

This project models the backend of a data quality platform. Users upload a table
(CSV or Excel), and the backend then does the following:

- It assesses the table with four analyzers: completeness, consistency, uniqueness and
  accuracy. It turns their reports into five scores and stores the assessment.
- It derives quality issues from the latest assessment. It asks a local language model
  for a cleaning strategy, falling back to a fixed strategy when the reply does not
  parse.
- It detects anomalies with an ensemble of three detectors. The ensemble weights their
  min-max normalised scores, thresholds them at a percentile, and accumulates the
  detectors' feature importances.
- It builds a dashboard of metric cards and charts, either from a suggestion list the
  model writes or from a fallback list.
- It keeps a small in-memory knowledge base for retrieval by similarity.
- It serves chat sessions. Streamed replies are cut into five-character chunks.
- It runs a cleanup service that deletes old datasets, orphaned upload files and old
  empty chats.

## Module layout

Each core file is a module:

- Completeness, Consistency, Uniqueness, Accuracy: the analyzers;
- Assessment, Recommendations: the two routes;
- Detectors: the LOF and one-class SVM detectors, which share their code;
- Ensemble;
- OllamaClient;
- Dashboard;
- RagSystem;
- Chat;
- Cleanup.

Shared modules:

- Wrappers holds Option and Result.
- Strings holds ASCII text helpers: lower case, strip, `find`/`rfind`, split and join.
- JsonData holds JSON values and truthiness.
- Frames is the table: named columns of null, number or text cells.
- Tally is a counter that keeps Python's dict insertion order.
- Sorting is a stable sort by descending value.
- Database holds the stored rows and the "latest row of a dataset" query.

Computations in the numerical libraries are parameters of the model, passed as function
values. These are: `float()` acceptance, `quantile`, `mean`, `std`, `percentile`,
column statistics, sentence embeddings, cosine similarity, `json.loads`,
scikit-learn's fits and Plotly figures. So are the effects the code cannot control:
the language model, file removal, database deletion and the clock.

Three objects change in place, and each is a class whose methods are proved against
specification functions:

- the knowledge base (`RagSystem.KnowledgeBase`);
- the chat store (`Chat.ChatStore`);
- the cleanup service (`Cleanup.CleanupService`).

Loops in the source are methods with loop invariants, each proved equal to a
specification function. The analyzers, the routes, the ensemble and the dashboard are
functions over values, with lemmas stating what the source promises.

## Model

| member | source | states |
|---|---|---|
| Completeness.NonNullCells | backend/app/services/quality_engine/completeness.py:17-18 | the non-null cells counted over the columns are at most the number of cells |
| Completeness.OverallCompleteness | backend/app/services/quality_engine/completeness.py:16-19 | overall completeness lies in [0, 100], and is 0 for a table without cells |
| Completeness.CompleteIffNoNulls | backend/app/services/quality_engine/completeness.py:16-19 | overall completeness is exactly 100 if and only if no cell of the table is null |
| Completeness.ColumnStatOf | backend/app/services/quality_engine/completeness.py:23-31 | a column's statistics carry its name and type and its null count; the missing percentage lies in [0, 100], adds up to 100 with the completeness score, is 0 for an empty table and is 0 exactly when nothing is missing; unique_values is the column's nunique |
| Completeness.AnalyzeColumns | backend/app/services/quality_engine/completeness.py:21-33 | the loop yields one statistics record per column, in column order, each equal to that column's statistics |
| Completeness.Overlap | backend/app/services/quality_engine/completeness.py:40 | the rows missing in both columns are at most the rows missing in either one |
| Completeness.PatternFor | backend/app/services/quality_engine/completeness.py:40-50 | a reported pair names the two columns, has a positive overlap equal to the rows missing in both, and a Jaccard similarity in (0.5, 1] |
| Completeness.EitherNull | backend/app/services/quality_engine/completeness.py:42-43 | the rows missing in either column are at least the rows missing in both |
| Completeness.InclusionExclusion | backend/app/services/quality_engine/completeness.py:42-43 | the two null counts add up to the rows missing in both plus the rows missing in either, so `total_missing - overlap` is the size of the union |
| Completeness.PatternForExact | backend/app/services/quality_engine/completeness.py:40-50 | a pair is reported if and only if the columns share a missing row and the Jaccard index of their missing rows, missing-in-both over missing-in-either, exceeds 0.5; the reported similarity is that index |
| Completeness.DetectMissingPatterns | backend/app/services/quality_engine/completeness.py:35-51 | the nested loop over column pairs yields exactly the pattern list of the specification |
| Completeness.PatternsFrom | backend/app/services/quality_engine/completeness.py:39-50 | the inner loop yields exactly the patterns of column a against each later column, in column order |
| Completeness.CheckNextPattern | backend/app/services/quality_engine/completeness.py:39-50 | one pass of the inner loop appends the pair's pattern, if any, to the patterns of the earlier pairs |
| Completeness.CheckPatternPair | backend/app/services/quality_engine/completeness.py:40-50 | the overlap, Jaccard similarity and threshold computed for one pair give exactly that pair's pattern, if any |
| Completeness.PatternIndicesMatch | backend/app/services/quality_engine/completeness.py:38-39 | pattern k is the one reported for the k-th column pair a < b, and the pairs come in the loops' lexicographic order |
| Completeness.MissingPatternProperties | backend/app/services/quality_engine/completeness.py:35-51 | every pattern has a positive overlap, a similarity in (0.5, 1] and names two distinct columns in table order |
| Completeness.MissingPatternsDistinct | backend/app/services/quality_engine/completeness.py:38-39 | no pair of columns is reported twice |
| Completeness.Flagged | backend/app/services/quality_engine/completeness.py:58-62 | the columns whose missing percentage exceeds a limit, as ascending indices: a column is listed if and only if it exceeds the limit |
| Completeness.ColumnAdviceExact | backend/app/services/quality_engine/completeness.py:58-62 | one column advice per column above 20% missing, in column order; "drop or impute" above 50%, "impute" otherwise |
| Completeness.RecommendationsOrder | backend/app/services/quality_engine/completeness.py:55-62 | the overall advice comes first exactly when overall completeness is below 90, and never after it |
| Completeness.GenerateRecommendations | backend/app/services/quality_engine/completeness.py:53-63 | the loop yields exactly the advice list of the specification |
| Completeness.ColumnStats | backend/app/services/quality_engine/completeness.py:21-33 | one statistics record per column |
| Completeness.Analyze | backend/app/services/quality_engine/completeness.py:6-14 | the report is built from the overall score, the column statistics, the patterns and the advice derived from them |
| Consistency.Texts | backend/app/services/quality_engine/consistency.py:22 | `str(val)` of each cell, position by position |
| Consistency.ExtractPattern | backend/app/services/quality_engine/consistency.py:34-37 | the pattern has the value's length; digits and ASCII letters become 'A', everything else stays, so 'N' never appears in a pattern |
| Consistency.ExtractPatternIdempotent | backend/app/services/quality_engine/consistency.py:34-37 | extracting a pattern from a pattern changes nothing |
| Consistency.PatternsOf | backend/app/services/quality_engine/consistency.py:21-24 | one pattern per distinct non-null value |
| Consistency.FormatIssueProperties | backend/app/services/quality_engine/consistency.py:17-32 | a column is reported if and only if its distinct values show two different patterns; the report names the column, counts its patterns (more than one), the pattern counts add up to the distinct values, and the score lies strictly between 0 and 100 |
| Consistency.TallyShape | backend/app/services/quality_engine/consistency.py:20-30 | a tally has more than one key if and only if two tallied items differ; its counts add up to the items; with several keys the largest count is a share strictly between 0 and 100 |
| Consistency.CheckFormatColumn | backend/app/services/quality_engine/consistency.py:20-31 | one column's pattern tally and score give exactly that column's format issue, if any |
| Consistency.CheckFormatConsistency | backend/app/services/quality_engine/consistency.py:17-32 | the loop over the text columns yields exactly the format issues of the specification |
| Consistency.CheckNextFormatColumn | backend/app/services/quality_engine/consistency.py:19-31 | one pass of the loop extends the format issues of the columns before it by that column's issue, if any |
| Consistency.FirstWithNorm | backend/app/services/quality_engine/consistency.py:45-52 | the first earlier value with the same normalised form, or -1 when there is none |
| Consistency.ValuePairsExact | backend/app/services/quality_engine/consistency.py:39-53 | a pair is reported if and only if a value's normalised form was already seen, pairing the first value seen with it |
| Consistency.ValuePairsSound | backend/app/services/quality_engine/consistency.py:44-50 | every reported pair is a value whose normalised form was seen before, paired with the first value seen |
| Consistency.ValuePairsComplete | backend/app/services/quality_engine/consistency.py:44-50 | every value whose normalised form was seen before is reported, paired with the first value seen |
| Consistency.ScanValues | backend/app/services/quality_engine/consistency.py:43-52 | the loop with its dictionary of first-seen values yields exactly the pairs of the specification |
| Consistency.CheckValueConsistency | backend/app/services/quality_engine/consistency.py:39-53 | the loop over the text columns yields exactly the value issues of the specification |
| Consistency.CheckNextValueColumn | backend/app/services/quality_engine/consistency.py:41-52 | one pass of the loop extends the value issues of the columns before it by that column's issue, if any |
| Consistency.InferType | backend/app/services/quality_engine/consistency.py:71-78 | numeric if and only if `float()` accepts the value; date if and only if it does not and the value starts with dddd-dd-dd; text otherwise |
| Consistency.TypesOf | backend/app/services/quality_engine/consistency.py:60-62 | one inferred type per non-null value |
| Consistency.TypeIssueProperties | backend/app/services/quality_engine/consistency.py:55-69 | a column is reported if and only if two of its values have different types; the type counts add up to its non-null values, and the dominant type occurs and has the largest count |
| Consistency.CheckTypeColumn | backend/app/services/quality_engine/consistency.py:58-68 | one column's type tally gives exactly that column's type issue, if any |
| Consistency.CheckTypeConsistency | backend/app/services/quality_engine/consistency.py:55-69 | the loop over the text columns yields exactly the type issues of the specification |
| Consistency.Recommendations | backend/app/services/quality_engine/consistency.py:80-88 | one advice per non-empty issue kind, each advice present if and only if its kind has issues, in the order format, value, type |
| Consistency.Analyze | backend/app/services/quality_engine/consistency.py:7-15 | the report is built from the three checks and the advice derived from them |
| Uniqueness.UniqueIsDistinct | backend/app/services/quality_engine/uniqueness.py:49 | a column's unique values are its distinct non-null values in first-seen order |
| Uniqueness.NUniqueIsTallySize | backend/app/services/quality_engine/uniqueness.py:33-41 | nunique equals the number of distinct values that value_counts reports |
| Uniqueness.DuplicateRowsProperties | backend/app/services/quality_engine/uniqueness.py:17-28 | the unique rows are the distinct rows; duplicates exist if and only if two rows are equal; both percentages are 0 for an empty table and otherwise add up to 100; the score is 100 exactly when no row repeats |
| Uniqueness.DuplicateValuesProperties | backend/app/services/quality_engine/uniqueness.py:30-43 | a column is reported if and only if a non-null value occurs twice; twice the repeated values is at most their occurrences, which are at most the non-null values; the unique percentage lies strictly between 0 and 100 |
| Uniqueness.DuplicateValuesExact | backend/app/services/quality_engine/uniqueness.py:33-41 | `duplicate_value_count` is the number of distinct non-null values that occur more than once, `total_duplicate_occurrences` is the sum of their occurrence counts, and a column is listed exactly when there is such a value |
| Uniqueness.CheckDuplicateValues | backend/app/services/quality_engine/uniqueness.py:30-43 | the loop over the columns yields exactly the duplicate-value records of the specification |
| Uniqueness.ColumnScoreProperties | backend/app/services/quality_engine/uniqueness.py:45-57 | unique values are at most the non-null values; the score lies in [0, 100] and is 0 (low cardinality) with no values; cardinality is high if and only if the score exceeds 90, and medium if and only if it lies in (50, 90] |
| Uniqueness.CardinalityMatchesScore | backend/app/services/quality_engine/uniqueness.py:55 | the cardinality thresholds on counts agree with the same thresholds on the percentage |
| Uniqueness.ShareAbove | backend/app/services/quality_engine/uniqueness.py:55 | `unique > total * f` holds if and only if the percentage exceeds 100·f |
| Uniqueness.CalculateUniquenessScores | backend/app/services/quality_engine/uniqueness.py:45-57 | one score per column, each equal to the specification's score |
| Uniqueness.GenerateRecommendations | backend/app/services/quality_engine/uniqueness.py:59-69 | the loop yields exactly the advice list of the specification |
| Uniqueness.RecommendationsShape | backend/app/services/quality_engine/uniqueness.py:59-69 | the deduplication advice comes first exactly when there are duplicate rows; the low-uniqueness advices are exactly those of the reported columns below 50% unique |
| Uniqueness.LowUniquenessExact | backend/app/services/quality_engine/uniqueness.py:65-67 | an advice is in the low-uniqueness list if and only if it names a reported column below 50% unique, with its percentage |
| Uniqueness.Analyze | backend/app/services/quality_engine/uniqueness.py:7-15 | the report is built from the three checks and the advice derived from them |
| Accuracy.CountWhere | backend/app/services/quality_engine/accuracy.py:27-28 | a count of matching values is at most the number of values |
| Accuracy.CountWherePositive | backend/app/services/quality_engine/accuracy.py:27-30 | the count is positive if and only if some value matches |
| Accuracy.Min | backend/app/services/quality_engine/accuracy.py:36 | the minimum occurs in the data and is below every value |
| Accuracy.Max | backend/app/services/quality_engine/accuracy.py:37 | the maximum occurs in the data and is above every value |
| Accuracy.Bounds | backend/app/services/quality_engine/accuracy.py:21-25 | with q1 ≤ q3 the fences q1 − 3·IQR and q3 + 3·IQR enclose [q1, q3] |
| Accuracy.RangeViolationIff | backend/app/services/quality_engine/accuracy.py:16-39 | a column is reported if and only if some value lies outside the fences |
| Accuracy.RangeViolationFacts | backend/app/services/quality_engine/accuracy.py:16-39 | a report names the column, has a positive below or above count, each at most the values, carries the data's true min and max, and has ordered fences when q1 ≤ q3 |
| Accuracy.CheckColumnRange | backend/app/services/quality_engine/accuracy.py:19-38 | the per-column computation equals the specification's violation |
| Accuracy.CheckRangeViolations | backend/app/services/quality_engine/accuracy.py:16-39 | the loop over the numeric columns yields exactly the violations of the specification |
| Accuracy.CheckNextRangeColumn | backend/app/services/quality_engine/accuracy.py:17-38 | one pass of the loop extends the violations of the columns before it by that column's violation, if any |
| Accuracy.Orphans | backend/app/services/quality_engine/accuracy.py:48-50 | the orphaned set holds each referenced non-null value that is not an id, once |
| Accuracy.Dangling | backend/app/services/quality_engine/accuracy.py:50 | set difference: a value is kept if and only if it is referenced and not an id |
| Accuracy.IntegrityIssueProperties | backend/app/services/quality_engine/accuracy.py:45-56 | a pair is reported if and only if the names look like id and reference and some referenced value is missing from the ids; the key is `col2_to_col1`, the count is the number of orphans, and the sample holds one to five orphans |
| Accuracy.CheckPair | backend/app/services/quality_engine/accuracy.py:47-56 | the per-pair computation equals the specification's issue |
| Accuracy.Store | backend/app/services/quality_engine/accuracy.py:53-56 | a dict assignment never leaves the dict empty |
| Accuracy.StoreKeys | backend/app/services/quality_engine/accuracy.py:53-56 | assigning an existing key keeps the keys in place; a new key is appended |
| Accuracy.StoreEntries | backend/app/services/quality_engine/accuracy.py:53-56 | after an assignment the dict holds the new issue, every entry under another key, and nothing else |
| Accuracy.RestOfStore | backend/app/services/quality_engine/accuracy.py:53-56 | with distinct keys, the old entry under the assigned key is gone |
| Accuracy.StoreAllDistinct | backend/app/services/quality_engine/accuracy.py:42-56 | no two entries of the dict share a key |
| Accuracy.LastOfKeyExtend | backend/app/services/quality_engine/accuracy.py:53 | an issue stays the last of its key when an issue under another key follows |
| Accuracy.StoreAll | backend/app/services/quality_engine/accuracy.py:42-56 | assigning at least one issue leaves a non-empty dict |
| Accuracy.StoreAllAppend | backend/app/services/quality_engine/accuracy.py:45-56 | assigning two runs of issues one after the other is assigning their concatenation |
| Accuracy.StoreAllKeys | backend/app/services/quality_engine/accuracy.py:42-56 | the dict's keys are the distinct `col2_to_col1` keys in order of first assignment |
| Accuracy.StoreAllLast | backend/app/services/quality_engine/accuracy.py:42-56 | every issue that no later issue with the same key overwrites is in the dict |
| Accuracy.StoreAllOnlyLast | backend/app/services/quality_engine/accuracy.py:42-56 | every entry of the dict is an issue that no later issue with the same key overwrites |
| Accuracy.LastAssignment | backend/app/services/quality_engine/accuracy.py:42-56 | names, for an entry of the dict, the assignment that put it there, which no later assignment to its key follows |
| Accuracy.CheckPairsFrom | backend/app/services/quality_engine/accuracy.py:46-56 | the inner loop assigns the issues of the later columns into the dict, in order |
| Accuracy.CheckNextPair | backend/app/services/quality_engine/accuracy.py:46-56 | one pass of the inner loop assigns the pair's issue, if any, into the dict |
| Accuracy.CheckReferentialIntegrity | backend/app/services/quality_engine/accuracy.py:41-57 | the nested loop returns the dict left by assigning every pair's issue in loop order |
| Accuracy.ZScoreAbove | backend/app/services/quality_engine/accuracy.py:66-67 | with std > 0, \|z\| > 3 if and only if the distance from the mean exceeds 3·std |
| Accuracy.OutlierProperties | backend/app/services/quality_engine/accuracy.py:59-76 | a column is reported if and only if it has data, std > 0 and some value lies more than 3·std from the mean; its count is positive and at most the values, and its percentage lies in (0, 100] |
| Accuracy.CheckColumnOutliers | backend/app/services/quality_engine/accuracy.py:62-75 | the per-column computation equals the specification's outlier record |
| Accuracy.DetectStatisticalOutliers | backend/app/services/quality_engine/accuracy.py:59-76 | the loop over the numeric columns yields exactly the outliers of the specification |
| Accuracy.CheckNextOutlierColumn | backend/app/services/quality_engine/accuracy.py:61-75 | one pass of the loop extends the outlier records of the columns before it by that column's record, if any |
| Accuracy.Recommendations | backend/app/services/quality_engine/accuracy.py:78-86 | one advice per non-empty result, each present if and only if its result is non-empty, in the order range, integrity, outliers |
| Accuracy.Analyze | backend/app/services/quality_engine/accuracy.py:6-14 | the report is built from the three checks and the advice derived from them |
| Assessment.Clamp | backend/app/api/v1/routes/assessment.py:80-81 | `max(0, x)` |
| Assessment.MetricsProperties | backend/app/api/v1/routes/assessment.py:63-68 | completeness and uniqueness scores are the analyzers' values; consistency is 100 − 10 per format issue and accuracy 100 − 15 per range violation, clamped at 0, both in [0, 100] |
| Assessment.MetricsInRange | backend/app/api/v1/routes/assessment.py:58-68 | for every table, all four stored scores lie in [0, 100] |
| Assessment.OverallUsesRawScores | backend/app/api/v1/routes/assessment.py:68 | the overall score averages the unclamped scores: it equals the mean of the returned scores exactly when nothing was clamped, and is never above it |
| Assessment.RecordProperties | backend/app/api/v1/routes/assessment.py:72-98 | storing a report appends exactly one assessment of the dataset with the report's scores, marks the dataset "assessed", changes nothing else, and the new row becomes the latest when no stored one is newer |
| Assessment.AssessQualityProperties | backend/app/api/v1/routes/assessment.py:44-98 | 404 if and only if the dataset is unknown; otherwise exactly one assessment with the returned scores is appended, the dataset alone changes (status "assessed", same table), recommendations are unchanged, and when no stored assessment of it is newer the new one becomes its latest |
| Assessment.GetQualityReport | backend/app/api/v1/routes/assessment.py:100-109 | 404 if and only if the dataset has no assessment; otherwise the report of an assessment of it with the greatest timestamp |
| Assessment.ReportReadBack | backend/app/api/v1/routes/assessment.py:100-109 | right after an assessment, the report route returns the analyzers' report on the stored table |
| Assessment.ProgressSteps | backend/app/api/v1/routes/assessment.py:21-34 | six steps with strictly increasing progress, ending at 100 |
| Database.Latest | backend/app/api/v1/routes/assessment.py:102-104 | `order_by(timestamp.desc()).first()`: none if and only if the dataset has no row; otherwise a row of it whose timestamp is the greatest |
| Database.LatestAfterAppend | backend/app/api/v1/routes/recommendations.py:104-106 | a newly stored row that is not older than the dataset's other rows becomes its latest |
| Database.LatestOtherOwner | backend/app/api/v1/routes/recommendations.py:104-106 | a row stored for one dataset leaves every other dataset's latest row unchanged |
| Recommendations.CompletenessIssue | backend/app/api/v1/routes/recommendations.py:48-56 | a column yields an issue if and only if more than 10% is missing; high severity if and only if more than 50% |
| Recommendations.ExtractIssues | backend/app/api/v1/routes/recommendations.py:45-65 | the two loops yield exactly the issue list of the specification |
| Recommendations.CompletenessIssuesExact | backend/app/api/v1/routes/recommendations.py:48-56 | one completeness issue per column above 10%, in column order |
| Recommendations.ConsistencyIssuesExact | backend/app/api/v1/routes/recommendations.py:58-65 | one medium-severity consistency issue per column with a format issue, in order |
| Recommendations.IssuesOrder | backend/app/api/v1/routes/recommendations.py:45-65 | consistency issues come after all completeness issues |
| Recommendations.IssueKinds | backend/app/api/v1/routes/recommendations.py:45-65 | every issue is of a known kind |
| Recommendations.Kinds | backend/app/api/v1/routes/recommendations.py:68 | the kinds of the issues, in order |
| Recommendations.QueryWords | backend/app/api/v1/routes/recommendations.py:68 | the retrieval query splits back into the kinds of the first three issues; it is empty without issues |
| Recommendations.Fallback | backend/app/api/v1/routes/recommendations.py:81-87 | the fallback strategy has exactly the four keys |
| Recommendations.FallbackContents | backend/app/api/v1/routes/recommendations.py:81-87 | the fallback ranks every issue by kind and severity in order, lists every issue's column as the implementation order, and has no strategies |
| Recommendations.ImplementationOrder | backend/app/api/v1/routes/recommendations.py:85 | the implementation order reads back as the issues' columns |
| Recommendations.Strategy | backend/app/api/v1/routes/recommendations.py:81-87 | the model's reply is kept if and only if it has a truthy `parsed` key; otherwise the fallback is used |
| Recommendations.FallbackOnParsedReplies | backend/app/api/v1/routes/recommendations.py:81-87 | a reply without a braced part, with a part that does not decode, or that decodes to an object without `parsed`, always leads to the fallback |
| Recommendations.GenerateRecommendationsProperties | backend/app/api/v1/routes/recommendations.py:16-100 | 404 if the dataset is unknown or has no assessment; otherwise 500 if and only if the model's `response` is not text. On success the strategies are the parse of the reply text when it has a truthy `parsed` key and the fallback otherwise; one recommendation with them is appended; the dataset's status becomes "recommendations_generated" with its table kept; every other dataset and all assessments are unchanged |
| Recommendations.SaveProperties | backend/app/api/v1/routes/recommendations.py:89-98 | storing adds exactly one recommendation of the dataset with the strategies, marks it "recommendations_generated" and changes nothing else |
| Recommendations.GetRecommendations | backend/app/api/v1/routes/recommendations.py:102-111 | 404 if and only if the dataset has no recommendation; otherwise the strategies of a recommendation of that dataset with the greatest timestamp |
| Recommendations.ReadBack | backend/app/api/v1/routes/recommendations.py:102-111 | right after generating, the read route returns the strategies just returned |
| Detectors.Detect | backend/app/services/ml_engine/lof_detector.py:14-25 | empty arrays when the numeric part is empty; otherwise a row is flagged if and only if the fit labels it −1, and the scores are the fit's scores (the one-class SVM detector's `detect` is identical) |
| Detectors.Complement | backend/app/services/ml_engine/lof_detector.py:36 | `~indices` is −i − 1 for each index, negative for each valid index |
| Detectors.Gap | backend/app/services/ml_engine/lof_detector.py:35-37 | a column's importance is non-negative |
| Detectors.RawImportance | backend/app/services/ml_engine/lof_detector.py:34-37 | one non-negative entry per numeric column, named after it, in column order |
| Detectors.ComputeRaw | backend/app/services/ml_engine/lof_detector.py:34-37 | the loop over the columns yields exactly the raw importances of the specification |
| Detectors.Scale | backend/app/services/ml_engine/lof_detector.py:40-41 | each value divided by the total, names kept |
| Detectors.ScaleSum | backend/app/services/ml_engine/lof_detector.py:39-41 | dividing by the total divides the sum by it |
| Detectors.SumNonNegative | backend/app/services/ml_engine/lof_detector.py:39 | a sum of non-negative importances is non-negative, and zero only when all are zero |
| Detectors.Normalized | backend/app/services/ml_engine/lof_detector.py:39-41 | the normalisation keeps the names and their order |
| Detectors.NormalizedFacts | backend/app/services/ml_engine/lof_detector.py:39-41 | normalised importances are non-negative and sum to 1, unless all are 0 |
| Detectors.SortedNormalizedValues | backend/app/services/ml_engine/lof_detector.py:43 | after sorting, the importances are descending, non-negative and sum to 1 unless all are 0 |
| Detectors.SortedNormalizedKeys | backend/app/services/ml_engine/lof_detector.py:43 | sorting keeps exactly the numeric columns' names |
| Detectors.FeatureImportance | backend/app/services/ml_engine/lof_detector.py:27-43 | the method equals the specification's importance (the one-class SVM detector's is identical) |
| Detectors.ImportanceProperties | backend/app/services/ml_engine/lof_detector.py:27-43 | empty for an empty numeric part or no anomalies; otherwise, when every mean exists, one entry per numeric column named after it, descending, non-negative, summing to 1 unless all are 0 |
| Ensemble.Members | backend/app/services/ml_engine/ensemble.py:11-20 | isolation forest, LOF and one-class SVM in that order, with non-negative weights summing to 1 |
| Ensemble.Fitted | backend/app/services/ml_engine/ensemble.py:36-40 | a fitted member's detection and importance are those of the shared detector code |
| Ensemble.Zeros | backend/app/services/ml_engine/ensemble.py:43-44 | a failed member's predictions and scores are n zeros |
| Ensemble.MinAbs | backend/app/services/ml_engine/ensemble.py:81-82 | the least absolute score, attained by some score |
| Ensemble.MaxAbs | backend/app/services/ml_engine/ensemble.py:81-83 | the greatest absolute score, attained by some score |
| Ensemble.Normalize | backend/app/services/ml_engine/ensemble.py:77-88 | normalisation keeps the length |
| Ensemble.NormalizeInRange | backend/app/services/ml_engine/ensemble.py:77-88 | normalised scores lie in [0, 1] and preserve the order of absolute scores |
| Ensemble.NormalizeConstant | backend/app/services/ml_engine/ensemble.py:85-86 | scores of equal absolute value normalise to zeros |
| Ensemble.NormalizeExtremes | backend/app/services/ml_engine/ensemble.py:81-88 | otherwise the smallest becomes 0 and the largest 1 |
| Ensemble.AddScaled | backend/app/services/ml_engine/ensemble.py:50 | `ensemble_scores += weight * normalized`, position by position |
| Ensemble.Combined | backend/app/services/ml_engine/ensemble.py:46-50 | the combined scores have one entry per row |
| Ensemble.CombinedBounds | backend/app/services/ml_engine/ensemble.py:46-50 | each combined score lies between 0 and the total weight |
| Ensemble.CombineScores | backend/app/services/ml_engine/ensemble.py:46-50 | the loop fails if and only if some member's scores do not have one entry per row; otherwise it yields the combined scores |
| Ensemble.Flags | backend/app/services/ml_engine/ensemble.py:52-53 | a row is flagged if and only if its score exceeds the threshold |
| Ensemble.Where | backend/app/services/ml_engine/ensemble.py:55 | `np.where`: exactly the flagged positions, ascending |
| Ensemble.Put | backend/app/services/ml_engine/ensemble.py:63 | a dict assignment keeps the key order, appending a new key at the end |
| Ensemble.PutGet | backend/app/services/ml_engine/ensemble.py:63 | after an assignment the key reads back its value and other keys are unchanged |
| Ensemble.WeightedTotalIsScaled | backend/app/services/ml_engine/ensemble.py:63 | adding each score times the weight adds the weight times the scores' sum |
| Ensemble.MergeGet | backend/app/services/ml_engine/ensemble.py:62-63 | merging one member's importance adds its weighted score to each feature |
| Ensemble.MergeKeys | backend/app/services/ml_engine/ensemble.py:62-63 | merging keeps the existing keys first and adds the member's new features after them |
| Ensemble.MergeInto | backend/app/services/ml_engine/ensemble.py:62-63 | the inner loop yields exactly the merged dict |
| Ensemble.AccumulatedGet | backend/app/services/ml_engine/ensemble.py:57-65 | each feature's importance is the sum of the members' weighted scores for it; failed members contribute nothing |
| Ensemble.AccumulatedKeys | backend/app/services/ml_engine/ensemble.py:57-65 | a feature is present if and only if some member that succeeded reports it |
| Ensemble.AccumulateImportance | backend/app/services/ml_engine/ensemble.py:57-65 | the loop over the members yields exactly the accumulated importance |
| Ensemble.Individual | backend/app/services/ml_engine/ensemble.py:70-73 | one entry per member: its name and the positions it flagged |
| Ensemble.MemberFlags | backend/app/services/ml_engine/ensemble.py:71 | a member's positions are those its predictions flag; a failed member has none |
| Ensemble.DetectAnomalies | backend/app/services/ml_engine/ensemble.py:22-75 | the method equals the specification's report |
| Ensemble.DetectAnomaliesProperties | backend/app/services/ml_engine/ensemble.py:22-75 | an empty numeric part gives the empty report; otherwise it fails if and only if a member's scores are misshaped, and a row is an anomaly if and only if its combined score exceeds the threshold, listed ascending; no anomalies means no importance |
| Ensemble.IndividualResults | backend/app/services/ml_engine/ensemble.py:70-73 | the individual results name every member and list exactly the rows it flagged |
| Ensemble.ScoresInUnitRange | backend/app/services/ml_engine/ensemble.py:16-50 | with the weights 0.4, 0.3 and 0.3, every ensemble score lies in [0, 1] |
| Ensemble.ImportanceIsWeighted | backend/app/services/ml_engine/ensemble.py:57-65 | with anomalies, the importance holds each feature once, valued at the weighted sum of the members' importances |
| OllamaClient.Payload | backend/app/services/llm_engine/ollama_client.py:20-31 | the request body has model, prompt, `stream: false` and the options; `system` is present exactly for a non-empty system prompt |
| OllamaClient.ErrorReply | backend/app/services/llm_engine/ollama_client.py:41-45 | the failure reply has exactly `response` and a truthy `error`, and `response` carries the message |
| OllamaClient.Generate | backend/app/services/llm_engine/ollama_client.py:33-45 | a successful request returns its body, a failed one the failure reply |
| OllamaClient.Unparsed | backend/app/services/llm_engine/ollama_client.py:111-119 | the unparsed reply has exactly `raw_response`, holding the text, and a falsy `parsed` |
| OllamaClient.ParsedFlag | backend/app/services/llm_engine/ollama_client.py:101-119 | a truthy `parsed` comes only from a braced part that decoded; with no braced part the reply is the unparsed one |
| OllamaClient.CleaningStrategy | backend/app/services/llm_engine/ollama_client.py:92-104 | fails exactly when the reply has a `response` that is not text; otherwise the parse of its text, '' when the key is missing |
| OllamaClient.FailedRequestUnparsed | backend/app/services/llm_engine/ollama_client.py:33-45 | a failed request whose message has no '{' yields the unparsed reply carrying the failure text |
| OllamaClient.ParseResponseOf | backend/app/services/llm_engine/ollama_client.py:103-109 | for text without '{' before and '}' after one braced part, exactly that part is decoded |
| Strings.Enclosed | backend/app/services/llm_engine/ollama_client.py:104-108 | a slice exists if and only if both characters occur and the first '{' comes before the last '}'; it runs from one to the other |
| Dashboard.Leading | backend/app/api/v1/routes/ai_dashboard.py:485 | `numeric_cols[:2]` |
| Dashboard.FallbackSuggestions | backend/app/api/v1/routes/ai_dashboard.py:480-502 | the building loop yields exactly the fallback list of the specification |
| Dashboard.MetricCards | backend/app/api/v1/routes/ai_dashboard.py:484-488 | the card loop yields the count card, then a sum and an average card for each of the first two numeric columns, and nothing without numeric columns |
| Dashboard.ChartSuggestions | backend/app/api/v1/routes/ai_dashboard.py:490-500 | the chart dicts render the chart plan: histogram, scatter, bar and heatmap, each exactly when there are enough columns of its kind, in that order |
| Dashboard.ChartPartRendered | backend/app/api/v1/routes/ai_dashboard.py:490-500 | each chart of the plan renders to the dict the source appends for it, in the same order |
| Dashboard.RenderAllType | backend/app/api/v1/routes/ai_dashboard.py:484-500 | the rendered list holds a suggestion of a type if and only if the plan holds one of that kind |
| Dashboard.CardsType | backend/app/api/v1/routes/ai_dashboard.py:484-488 | the card part holds a suggestion of a type if and only if there is a numeric column and the type is metric_card |
| Dashboard.ChartsType | backend/app/api/v1/routes/ai_dashboard.py:490-500 | the chart part holds a histogram if and only if a numeric column exists, a scatter if and only if two do, a bar if and only if a text column exists, a heatmap if and only if three numeric columns do |
| Dashboard.CardsColumns | backend/app/api/v1/routes/ai_dashboard.py:486-488 | every card after the count card is a sum or an average card of one of the leading numeric columns |
| Dashboard.CardsOfLayout | backend/app/api/v1/routes/ai_dashboard.py:485-487 | a sum card and an average card per leading numeric column, in order, all metric cards |
| Dashboard.FallbackOpening | backend/app/api/v1/routes/ai_dashboard.py:483-490 | with numeric columns, the list opens with the count card, then the cards of the first two numeric columns, then the histogram of the first |
| Dashboard.FallbackWithoutNumbers | backend/app/api/v1/routes/ai_dashboard.py:483-502 | without numeric columns, the list is just the bar chart of the first text column, if any |
| Dashboard.FallbackCharts | backend/app/api/v1/routes/ai_dashboard.py:483-502 | histogram and cards if and only if there is a numeric column; scatter if and only if two; heatmap if and only if three; bar if and only if a text column |
| Dashboard.FallbackType | backend/app/api/v1/routes/ai_dashboard.py:480-502 | the fallback list holds a given type if and only if one of the five conditions above holds for it |
| Dashboard.Format | backend/app/api/v1/routes/ai_dashboard.py:271-285 | the shown value times its suffix's factor is the value; "M" if and only if above a million, "K" if and only if in (1000, 1e6], no suffix otherwise |
| Dashboard.StatisticName | backend/app/api/v1/routes/ai_dashboard.py:255-266 | a metric type that names a column statistic maps to one of sum, mean, min, max, median |
| Dashboard.MetricValue | backend/app/api/v1/routes/ai_dashboard.py:249-269 | a count without a column is the row count; with one it exists if and only if the column does, and is at most the row count; an unknown type is the row count; a statistic comes from an existing column |
| Dashboard.FailedCard | backend/app/api/v1/routes/ai_dashboard.py:295-303 | a failed card shows "N/A" and "Could not calculate" |
| Dashboard.MetricCardContents | backend/app/api/v1/routes/ai_dashboard.py:246-303 | a card carries the suggestion's type and title; a computed value is shown formatted for the column or "dataset"; a failed one for the column or "unknown" |
| Dashboard.MetricCardShown | backend/app/api/v1/routes/ai_dashboard.py:246-293 | a well-formed card suggestion always yields a card, showing the formatted value when it is computed |
| Dashboard.PaletteLookup | backend/app/api/v1/routes/ai_dashboard.py:318-329 | a named palette is chosen if and only if the lower-cased scheme is its name; Viridis otherwise |
| Dashboard.PaletteIgnoresCase | backend/app/api/v1/routes/ai_dashboard.py:329 | the palette does not depend on the scheme's case |
| Dashboard.ItemOf | backend/app/api/v1/routes/ai_dashboard.py:192-215 | the suggestion fails with 500 if and only if it is not an object; an item carries the suggestion's title, and is a card exactly for a metric card suggestion, otherwise a chart of its type |
| Dashboard.BuildItems | backend/app/api/v1/routes/ai_dashboard.py:190-215 | the loop yields exactly the items of the specification |
| Dashboard.ItemsErrIs500 | backend/app/api/v1/routes/ai_dashboard.py:213-244 | the item loop only fails with 500 |
| Dashboard.ItemsOutcome | backend/app/api/v1/routes/ai_dashboard.py:190-215 | the loop fails if and only if some suggestion is not an object; otherwise it yields at most one item per suggestion |
| Dashboard.ItemsAppend | backend/app/api/v1/routes/ai_dashboard.py:190-215 | the items of two lists are the items of each, concatenated |
| Dashboard.WellFormedSuggestionShown | backend/app/api/v1/routes/ai_dashboard.py:192-212 | a well-formed suggestion always yields an item |
| Dashboard.AllShown | backend/app/api/v1/routes/ai_dashboard.py:190-215 | a list of well-formed suggestions yields one item each |
| Dashboard.FallbackWellFormed | backend/app/api/v1/routes/ai_dashboard.py:480-502 | every fallback suggestion is well formed |
| Dashboard.RenderWellFormed | backend/app/api/v1/routes/ai_dashboard.py:485-500 | each kind of fallback suggestion is well formed when its column, if any, is one of the table's |
| Dashboard.FallbackShown | backend/app/api/v1/routes/ai_dashboard.py:480-502 | the fallback list of a table yields one item per suggestion |
| Dashboard.Suggestions | backend/app/api/v1/routes/ai_dashboard.py:184-189 | without a bracketed part the fallback list for the table's numeric and text columns; otherwise the decoded array |
| Dashboard.DashboardOutcome | backend/app/api/v1/routes/ai_dashboard.py:75-244 | 404 if and only if the dataset is unknown; the only other failure is 500; a dashboard carries the requested column count and the analysis text |
| Dashboard.DashboardFallback | backend/app/api/v1/routes/ai_dashboard.py:184-241 | a reply without a bracketed part gives a dashboard with one item per fallback suggestion |
| RagSystem.SeedIds | backend/app/services/llm_engine/rag_system.py:24-74 | seven seed items, with ids completeness_1, completeness_2, consistency_1, outlier_1, uniqueness_1, accuracy_1, timeliness_1 in order |
| RagSystem.SeedEntriesLayout | backend/app/services/llm_engine/rag_system.py:76-78 | one entry per seed: its id, the text "pattern \| diagnosis \| solution", and the seed as metadata |
| RagSystem.KnowledgeBase.constructor | backend/app/services/llm_engine/rag_system.py:10-19 | a new knowledge base holds exactly the seed entries |
| RagSystem.KnowledgeBase.InitializeKnowledgeBase | backend/app/services/llm_engine/rag_system.py:21-78 | the seed entries are appended in order after the existing ones |
| RagSystem.KnowledgeBase.AddSeeds | backend/app/services/llm_engine/rag_system.py:76-78 | the loop appends one entry per seed, in order, after the existing entries |
| RagSystem.KnowledgeBase.AddKnowledge | backend/app/services/llm_engine/rag_system.py:80-89 | one entry and the embedding of its text are appended |
| RagSystem.PrefixLength | backend/app/services/llm_engine/rag_system.py:116 | the length of `similarities[:n]`, including Python's negative n |
| RagSystem.Ranked | backend/app/services/llm_engine/rag_system.py:104-112 | one (index, similarity) pair per entry, each with the similarity of that entry's embedding, sorted by non-increasing similarity |
| RagSystem.RankedDistinct | backend/app/services/llm_engine/rag_system.py:104-112 | the ranking lists each entry at most once |
| RagSystem.Retrieved | backend/app/services/llm_engine/rag_system.py:98-121 | empty for an empty base; as many hits as the slice keeps; similarities non-increasing |
| RagSystem.RetrievedTopN | backend/app/services/llm_engine/rag_system.py:98-121 | the hits are the most similar entries: an entry left out is no more similar than any hit, and on a tie it was stored after that hit |
| RagSystem.RetrievedHits | backend/app/services/llm_engine/rag_system.py:112-119 | each hit copies a distinct entry with its similarity; equal similarities keep insertion order |
| RagSystem.KnowledgeBase.RetrieveRelevantKnowledge | backend/app/services/llm_engine/rag_system.py:91-121 | the method returns the specification's hits for the query's embedding |
| Chat.ChunksConcat | backend/app/api/v1/routes/chat.py:109-114 | the chunks concatenate back to the reply |
| Chat.ChunksPrefix | backend/app/api/v1/routes/chat.py:111-113 | after k chunks, `full_response` is the first 5k characters of the reply |
| Chat.ChunkSizes | backend/app/api/v1/routes/chat.py:110-112 | no chunks exactly for an empty reply; every chunk has 1 to 5 characters, and all but the last exactly 5 |
| Chat.StreamChunks | backend/app/api/v1/routes/chat.py:109-114 | the loop yields the chunks and accumulates the whole reply |
| Chat.ChunkEvents | backend/app/api/v1/routes/chat.py:114 | one chunk event per chunk, in order |
| Chat.EventsOrder | backend/app/api/v1/routes/chat.py:92-130 | the stream opens with the session event and ends with done, or with error exactly when the reply failed; in between only chunks, whose contents make up the reply |
| Chat.Lines | backend/app/api/v1/routes/chat.py:87 | one "role: content" line per message |
| Chat.ConversationLines | backend/app/api/v1/routes/chat.py:87 | for messages without newlines, the conversation splits back into their lines |
| Chat.Lookup | backend/app/api/v1/routes/chat.py:62-64 | `filter(id == ...).first()`: none if and only if no session has the id; otherwise the first that has it |
| Chat.HistoryMembers | backend/app/api/v1/routes/chat.py:197-203 | a session's history holds exactly the stored messages of that session |
| Chat.HistoryAppend | backend/app/api/v1/routes/chat.py:83-85 | storing a message extends the history of its own session only |
| Chat.TurnPromptStored | backend/app/api/v1/routes/chat.py:79-87 | once the user message is stored, the conversation sent to the model is the session's earlier history followed by that message |
| Chat.ListSessionsOrder | backend/app/api/v1/routes/chat.py:191-195 | the listing holds exactly the sessions, most recently updated first |
| Chat.RemoveSession | backend/app/api/v1/routes/chat.py:213 | the session with the id goes, all others stay |
| Chat.RemoveSessionDistinct | backend/app/api/v1/routes/chat.py:213 | removal keeps ids distinct and leaves no session with the id |
| Chat.DropSessionMembers | backend/app/api/v1/routes/chat.py:212 | exactly the messages of other sessions remain |
| Chat.DropSessionEmpties | backend/app/api/v1/routes/chat.py:212 | the deleted session's history is empty afterwards |
| Chat.DropSessionKeepsOthers | backend/app/api/v1/routes/chat.py:212 | every other session's history is unchanged |
| Chat.DeleteLeavesNoTrace | backend/app/api/v1/routes/chat.py:205-216 | after deletion the id is unknown and has no messages; other histories are unchanged |
| Chat.Renamed | backend/app/models/database_models.py:70 | the session gets the new name with id and creation time kept; `updated_at` becomes the rename time exactly when the name changes (`onupdate`); other sessions unchanged |
| Chat.RenameKeepsSession | backend/app/api/v1/routes/chat.py:218-228 | the renamed session is still found at its place under its id with the new name; a new name stamps it updated now, an unchanged name changes nothing; other sessions unchanged |
| Chat.RenameListedFirst | backend/app/api/v1/routes/chat.py:191-195 | a session renamed later than every other session's update heads the `updated_at desc` listing |
| Chat.Opened | backend/app/api/v1/routes/chat.py:60-71 | 404 if and only if a non-zero id names no session; a known id opens that very session with the store unchanged; no id, or 0, appends a new session with the next id and opens it |
| Chat.Touched | backend/app/api/v1/routes/chat.py:116-124 | when the reply is stored the session's `updated_at` becomes the time and nothing else changes; otherwise the sessions are unchanged |
| Chat.LookupFirst | backend/app/api/v1/routes/chat.py:62-64 | the first session with the id is the one found |
| Chat.ChatStore.CreateSession | backend/app/api/v1/routes/chat.py:67-71 | a new session with the next id and the given name is appended; messages unchanged |
| Chat.ChatStore.CreateEmptySession | backend/app/api/v1/routes/chat.py:41-54 | a session named "New Chat" is appended |
| Chat.ChatStore.GetOrCreate | backend/app/api/v1/routes/chat.py:60-71 | a given (non-zero) id gives its session or 404 with the store unchanged; no id, or 0, creates a session; the outcome and the new sessions are those of `Opened` |
| Chat.ChatStore.AddMessage | backend/app/api/v1/routes/chat.py:73-80 | a message with the next id is appended; sessions unchanged |
| Chat.ChatStore.Touch | backend/app/api/v1/routes/chat.py:123 | only the session's `updated_at` changes |
| Chat.ChatStore.ChatStream | backend/app/api/v1/routes/chat.py:56-132 | 404 if and only if a given id is unknown, with the store unchanged; otherwise the stream is about the requested session (or the new one, with the next id), its events are those of the model's reply to that session's whole history, the user message is stored, the reply is stored exactly when it is text, and then that session alone is touched |
| Chat.ChatStore.StreamExchange | backend/app/api/v1/routes/chat.py:73-130 | the user message gets the next id and is stored; the events are the session event, the chunks of the model's reply to the whole history and done (or error when the reply is not text); the reply is stored exactly when it is text, and then only that session's `updated_at` changes |
| Chat.ChatStore.ChatOnce | backend/app/api/v1/routes/chat.py:134-189 | 404 if and only if a given id is unknown, with the store unchanged; for a known id the answer is about that session and a failure is 500, not 404; without an id a new session with the next id is used; 500 (a reply that is not text) keeps the user message only; otherwise the text reply to the whole history is returned, both messages are stored and only that session is touched |
| Chat.ChatStore.Exchange | backend/app/api/v1/routes/chat.py:150-189 | the user message is stored and the model asked with the history; a text reply is stored and returned and only that session's `updated_at` changes, and anything else gives 500 with only the user message stored and the sessions unchanged |
| Chat.ChatStore.DeleteSession | backend/app/api/v1/routes/chat.py:205-216 | 404 for an unknown id with the store unchanged; otherwise the session and all its messages go |
| Chat.ChatStore.RenameSession | backend/app/api/v1/routes/chat.py:218-228 | 404 for an unknown id; otherwise the sessions become `Renamed(…, now)`: new name, and `updated_at` set to now when the name changed |
| Cleanup.Filter | backend/app/services/cleanup_service.py:38-40 | a query filter: exactly the rows satisfying the condition, never more rows |
| Cleanup.DatasetSweepCounts | backend/app/services/cleanup_service.py:44-60 | the record count is the number of datasets deleted; deleted plus errors is the number selected; files deleted are at most records deleted; the uploads left are among those listed |
| Cleanup.DatasetSweepCovers | backend/app/services/cleanup_service.py:44-60 | every selected dataset is deleted or has an error, and only selected datasets are deleted |
| Cleanup.DatasetSweepFiles | backend/app/services/cleanup_service.py:47-50 | the uploads left plus the files deleted are the uploads listed, and names stay distinct |
| Cleanup.OldDatasetsRule | backend/app/services/cleanup_service.py:35-62 | datasets uploaded at or after the cutoff stay; a removed dataset is older; an older dataset is removed unless its removal failed |
| Cleanup.OrphanSweepCounts | backend/app/services/cleanup_service.py:96-106 | every orphan is deleted or has an error; the uploads left plus those deleted are the uploads listed; every error is a failed unlink |
| Cleanup.NoOrphanLeft | backend/app/services/cleanup_service.py:92-106 | afterwards every regular upload other than .gitkeep has a dataset or failed to unlink |
| Cleanup.ChatSweepMarks | backend/app/services/cleanup_service.py:145-159 | a chat is deleted if and only if it was selected, has no messages and its deletion succeeded; the count is the number deleted |
| Cleanup.EmptyChatsRule | backend/app/services/cleanup_service.py:138-161 | a chat disappears if and only if it was created before the cutoff, has no messages and its deletion succeeded |
| Cleanup.CleanupService.constructor | backend/app/services/cleanup_service.py:13-14 | the service over the given rows, uploads and chats |
| Cleanup.CleanupService.CleanupOldDatasets | backend/app/services/cleanup_service.py:17-74 | the statistics, uploads and rows after the loop are those of the dataset sweep over the datasets older than the cutoff; chats unchanged |
| Cleanup.CleanupService.CleanupOrphanedFiles | backend/app/services/cleanup_service.py:77-118 | the statistics and the uploads left are those of the orphan sweep against the stored filenames; everything else unchanged |
| Cleanup.CleanupService.CleanupEmptyChats | backend/app/services/cleanup_service.py:121-173 | the statistics and the sessions left are those of the empty-chat sweep over sessions older than the cutoff; everything else unchanged |
| Cleanup.CleanupService.RunAllCleanups | backend/app/services/cleanup_service.py:176-190 | datasets older than one day, then orphans against the datasets kept, then empty chats older than seven days; the statistics of all three and the final state |
| Frames.NonNull | backend/app/services/quality_engine/uniqueness.py:48 | `dropna()`: exactly the non-null cells, as many as the cells minus the nulls |
| Frames.Unique | backend/app/services/quality_engine/consistency.py:21 | `unique()`: each non-null value once |
| Frames.NumericColumns | backend/app/services/quality_engine/accuracy.py:18 | `select_dtypes(number)`: a column index is listed if and only if the column is numeric |
| Frames.ObjectColumns | backend/app/services/quality_engine/consistency.py:19 | `select_dtypes(object)`: a column index is listed if and only if the column holds text |
| Frames.Percent | backend/app/services/quality_engine/completeness.py:25 | `part / whole * 100`, 0 when whole is 0: in [0, 100] for part ≤ whole, 0 exactly when part or whole is 0 |
| Frames.PercentComplement | backend/app/services/quality_engine/completeness.py:28-29 | a percentage and its complement add up to 100 |
| Tally.GetOf | backend/app/services/quality_engine/consistency.py:24 | `d[k] = d.get(k, 0) + 1` over a list counts each value's occurrences |
| Tally.TotalOf | backend/app/services/quality_engine/consistency.py:62 | the counts add up to the number of values counted |
| Tally.KeysOfDistinct | backend/app/services/quality_engine/consistency.py:62 | the counter's keys are the distinct values in first-seen order |
| Tally.DominantIsMax | backend/app/services/quality_engine/consistency.py:67 | `max(d, key=d.get)` is a key with the largest count |
| Tally.MoreThanOnceIn | backend/app/services/quality_engine/uniqueness.py:35-36 | keeps no more elements than it is given |
| Tally.MoreThanOnceInHas | backend/app/services/quality_engine/uniqueness.py:35-36 | an element is kept if and only if it is among the candidates and occurs more than once |
| Tally.MoreThanOnceInDistinct | backend/app/services/quality_engine/uniqueness.py:35-36 | distinct candidates stay distinct |
| Tally.MoreThanOnce | backend/app/services/quality_engine/uniqueness.py:35-36 | the values occurring more than once are listed without repeats |
| Tally.RepeatedSub | backend/app/services/quality_engine/uniqueness.py:36 | `vc[vc > 1]` keeps entries of `vc` only |
| Tally.TotalIsOccurrenceSum | backend/app/services/quality_engine/uniqueness.py:38 | a counter whose counts are occurrences sums to the occurrences of its keys |
| Tally.RepeatedKeys | backend/app/services/quality_engine/uniqueness.py:36 | `vc[vc > 1]` keeps, in order, exactly the keys that occur more than once |
| Tally.RepeatedOfExact | backend/app/services/quality_engine/uniqueness.py:33-38 | the keys of `vc[vc > 1]` are exactly the values occurring more than once, in first-seen order, each counted with its occurrences, and its sum is the sum of those occurrences |
| Tally.RepeatedOfIff | backend/app/services/quality_engine/uniqueness.py:33-36 | `value_counts[value_counts > 1]` is non-empty if and only if some value occurs twice |
| Tally.DistinctPlusRepeats | backend/app/services/quality_engine/uniqueness.py:19-20 | unique rows plus duplicated rows make up all rows |
| Tally.RepeatsIff | backend/app/services/quality_engine/uniqueness.py:19 | `duplicated().sum()` is positive if and only if two rows are equal |
| Sorting.SortDescPermutes | backend/app/services/ml_engine/lof_detector.py:43 | `sorted(..., reverse=True)` is a permutation |
| Sorting.SortDescStable | backend/app/services/ml_engine/lof_detector.py:43 | equal values keep their original order |
| Strings.SplitJoin | backend/app/api/v1/routes/chat.py:87 | joining with a separator no part contains splits back into the parts |

## Left out

- Rounding: `round(x, 2)` and `round(x, 3)` on percentages, scores and similarities are not modelled. Values are exact reals, so the contracts hold for the unrounded values.
- Message text: f-string advice and error messages are datatype constructors that carry the numbers they print. Number formatting (`:.2f`) is not modelled.
- ASCII only: digits, letters and `lower()` cover ASCII, and `strip()` removes the ASCII characters Python counts as whitespace (space, U+0009 to U+000D, U+001C to U+001F). Unicode `\d`, case folding and whitespace beyond ASCII (U+0085, U+00A0 and the rest) are not modelled.
- Table types: columns are numeric or text, as `read_csv` gives them. Booleans, datetimes and Excel-specific types are not modelled. Column names are assumed distinct.
- File loading: `read_csv` and `read_excel` are not modelled. A stored dataset carries its table.
- Numerical library routines are function parameters, constrained only where the source relies on a property. These are quantile, mean, std, percentile, the fits of the three detectors, embeddings and cosine similarity. NaN results are not modelled.
- Uniqueness.DuplicateValuesProperties: the `most_common` sample (`head(5).to_dict()`) is not modelled.
- Accuracy.IntegrityIssueProperties: `list(orphaned)[:5]` takes a set in hash order. The model takes the orphans in first-seen order and states only what any order gives.
- Dictionaries keyed by column are sequences in column order. Two columns with the same key in a result dict are excluded by the distinct-name assumption. The referential-integrity dict is keyed by `col2_to_col1`, which two pairs of distinct columns can share (`q_id`, `q_to_q_to_q` and `q_to_q_id`, `q_to_q`); that dict is modelled with Python's assignment, so a later issue overwrites an earlier one in its place.
- Detectors.Complement: `~anomaly_indices` is modelled as it is written, as negative positions. `.loc` with those labels is the column-mean parameter, so what pandas does with them is not modelled.
- Ensemble.DetectAnomalies: a member's score array of the wrong length makes the model fail. NumPy's broadcasting of a length-1 array is not modelled, and neither is the `print` of a member's error.
- Ensemble: the isolation forest detector's source is not part of this model. It is a detector value like the other two.
- Assessment.AssessQualityProperties: the latest row of a dataset is the one with the greatest timestamp. Among equal timestamps the model picks the later-stored row, a choice the database does not promise.
- Recommendations.GenerateRecommendationsProperties: the `data_profile` sent to the model is not modelled, nor the `llm_reasoning` and `impact_analysis` columns. The model's prompt and the knowledge retrieval only feed those texts.
- Dashboard: Plotly figure construction and its error figure are a `plot` parameter, and the prompts are not modelled. The `dashboard_id` timestamp is left out because it needs the clock.
- Dashboard.ItemOf: a suggestion whose fields have the wrong JSON types fails inside `generate_plotly_chart` or the pydantic models. The model treats such an item as skipped. Pydantic's lax coercions are not modelled.
- Chat: server-sent-event framing and JSON encoding of the events are not modelled. Timestamps are a `now` parameter, and message order equals creation order.
- Chat.ChatStore.ChatStream: exceptions other than a `response` that is neither text nor an empty list or dict are not modelled, for example a failing commit. Such exceptions also end the stream with an error event.
- Chat.ChatStore.ChatOnce: a `response` that is not text is modelled as a 500 with the assistant message not stored. The commit of such content is assumed to fail.
- Chat.ListSessionsOrder: sessions updated at the same moment keep their creation order, one order the database may return.
- RagSystem: the sentence-transformer model and cosine similarity are parameters. `float(sim)` is the similarity itself.
- RagSystem.Retrieved: its own contract gives the number of hits and their order only; that they are the most similar entries is stated by `RetrievedTopN`, to keep the function's contract cheap where it is unfolded.
- Cleanup.CleanupService.CleanupOldDatasets: `db.delete` of a dataset row is assumed never to fail. Only removal of the file can fail.
- Cleanup: an exception in the surrounding query ("Cleanup failed") and the rollback are not modelled. Neither is logging.
- Cleanup.CleanupService.RunAllCleanups: one `now` serves all three cleanups. The ISO timestamp is the `now` value itself.
- Cleanup: a missing upload directory is an empty listing. Error texts are `Failure` constructors carrying the id or file name and the reason.
