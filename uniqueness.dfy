/** The uniqueness analyzer: duplicate rows, values that occur more than once, and the
    share of distinct values in each column. */
module Uniqueness {
  import opened Wrappers
  import opened Frames
  import Tally

  /** `col.dropna().unique()` is the distinct list of the non-null values. */
  lemma {:induction false} UniqueIsDistinct(col: seq<Cell>)
    ensures Unique(col) == Tally.Distinct(NonNull(col))
  {
    if col != [] {
      var init := col[..|col| - 1];
      var last := col[|col| - 1];
      UniqueIsDistinct(init);
      var u := Unique(init);
      var nn0 := NonNull(init);
      assert Tally.Distinct(nn0) == u;
      if last.Null? {
        assert NonNull(col) == nn0;
      } else {
        var nn := NonNull(col);
        assert nn == nn0 + [last];
        assert nn[..|nn| - 1] == nn0;
        assert Tally.Distinct(nn) == if last in u then u else u + [last];
      }
    }
  }

  /** `nunique()` counts the keys of `value_counts()`. */
  lemma NUniqueIsTallySize(col: seq<Cell>)
    ensures NUnique(col) == |Tally.Of(NonNull(col))|
  {
    UniqueIsDistinct(col);
    Tally.KeysOfDistinct(NonNull(col));
  }

  // ---------------------------------------------------------------- duplicate rows

  datatype DuplicateRows = DuplicateRows(
    totalRows: nat,
    duplicateCount: nat,
    uniqueCount: int,
    duplicatePercentage: real,
    uniquenessScore: real)

  /** `_check_duplicate_rows`: a row counts as a duplicate when it equals an earlier row. */
  function DuplicateRowsOf(df: Frame): DuplicateRows
    requires WellFormed(df)
  {
    var total := df.height;
    var dup := Tally.Repeats(Rows(df));
    var unique := total - dup;
    DuplicateRows(total, dup, unique,
      if total > 0 then Percent(dup, total) else 0.0,
      if total > 0 && unique >= 0 then Percent(unique, total) else 0.0)
  }

  /** The unique count is the number of distinct rows; there is a duplicate exactly when
      two rows are equal; an empty frame scores 0.0; otherwise the two percentages
      add up to 100. */
  lemma DuplicateRowsProperties(df: Frame)
    requires WellFormed(df)
    ensures var d := DuplicateRowsOf(df);
      && d.totalRows == df.height
      && d.uniqueCount == |Tally.Distinct(Rows(df))|
      && (d.duplicateCount > 0 <==> exists i, j :: 0 <= i < j < df.height && Row(df, i) == Row(df, j))
      && (df.height == 0 ==> d.duplicatePercentage == 0.0 && d.uniquenessScore == 0.0)
      && (df.height > 0 ==> d.duplicatePercentage + d.uniquenessScore == 100.0)
      && (df.height > 0 ==> (d.uniquenessScore == 100.0 <==> d.duplicateCount == 0))
  {
    var rows := Rows(df);
    Tally.DistinctPlusRepeats(rows);
    Tally.RepeatsIff(rows);
    var dup := Tally.Repeats(rows);
    if df.height > 0 {
      PercentComplement(dup, df.height);
    }
  }

  // ---------------------------------------------------------------- duplicate values

  datatype DuplicateValues = DuplicateValues(
    column: string,
    duplicateValueCount: nat,
    totalDuplicateOccurrences: nat,
    uniquePercentage: real)

  /** The entry for column `j`, if some non-null value occurs more than once in it. */
  function DuplicateValuesFor(df: Frame, j: nat): Option<DuplicateValues>
    requires WellFormed(df) && j < |df.names|
  {
    var col := Column(df, j);
    var dups := Tally.Repeated(Tally.Of(NonNull(col)));
    if |dups| > 0 then
      Some(DuplicateValues(df.names[j], |dups|, Tally.Total(dups), Percent(NUnique(col), df.height)))
    else None
  }

  /** A column is listed exactly when a non-null value occurs in it twice; the repeated
      values then account for at least two occurrences each and for no more than the
      column's non-null values, and the column's distinct share is below 100. */
  lemma DuplicateValuesProperties(df: Frame, j: nat)
    requires WellFormed(df) && j < |df.names|
    ensures var nn := NonNull(Column(df, j));
      DuplicateValuesFor(df, j).Some? <==> exists a, b :: 0 <= a < b < |nn| && nn[a] == nn[b]
    ensures DuplicateValuesFor(df, j).Some? ==>
      var d := DuplicateValuesFor(df, j).value;
      && d.column == df.names[j]
      && 2 * d.duplicateValueCount <= d.totalDuplicateOccurrences <= |NonNull(Column(df, j))|
      && 0.0 < d.uniquePercentage < 100.0
  {
    var col := Column(df, j);
    var nn := NonNull(col);
    var c := Tally.Of(nn);
    Tally.RepeatedOfIff(nn);
    Tally.RepeatedTotal(c);
    Tally.TotalOf(nn);
    if Tally.Repeated(c) != [] {
      Tally.RepeatsIff(nn);
      Tally.DistinctPlusRepeats(nn);
      UniqueIsDistinct(col);
    }
  }


  /** What the two counts of a listed column are: `duplicateValueCount` is the number of
      distinct non-null values occurring more than once in the column, and
      `totalDuplicateOccurrences` adds up how often each of those values occurs. */
  lemma DuplicateValuesExact(df: Frame, j: nat)
    requires WellFormed(df) && j < |df.names|
    ensures var nn := NonNull(Column(df, j));
      && (forall v :: v in Tally.MoreThanOnce(nn) <==> Tally.Occurrences(nn, v) > 1)
      && (DuplicateValuesFor(df, j).Some? <==> Tally.MoreThanOnce(nn) != [])
      && (DuplicateValuesFor(df, j).Some? ==>
            && DuplicateValuesFor(df, j).value.duplicateValueCount == |Tally.MoreThanOnce(nn)|
            && DuplicateValuesFor(df, j).value.totalDuplicateOccurrences
                 == Tally.OccurrenceSum(nn, Tally.MoreThanOnce(nn)))
  {
    Tally.RepeatedOfExact(NonNull(Column(df, j)));
  }

  /** The entries for the first `m` columns. */
  function DuplicateValuesUpTo(df: Frame, m: nat): seq<DuplicateValues>
    requires WellFormed(df) && m <= |df.names|
  {
    if m == 0 then [] else DuplicateValuesUpTo(df, m - 1) + AsSeq(DuplicateValuesFor(df, m - 1))
  }

  /** `_check_duplicate_values` */
  method CheckDuplicateValues(df: Frame) returns (info: seq<DuplicateValues>)
    requires WellFormed(df)
    ensures info == DuplicateValuesUpTo(df, |df.names|)
  {
    info := [];
    for j := 0 to |df.names|
      invariant info == DuplicateValuesUpTo(df, j)
    {
      var col := Column(df, j);
      var counts := Tally.Count(NonNull(col));
      var dups := Tally.Repeated(counts);
      if |dups| > 0 {
        info := info + [DuplicateValues(df.names[j], |dups|, Tally.Total(dups), Percent(NUnique(col), df.height))];
      }
    }
  }

  // ---------------------------------------------------------------- per-column scores

  datatype Cardinality = High | Medium | Low

  datatype ColumnScore = ColumnScore(
    column: string,
    totalValues: nat,
    uniqueValues: nat,
    uniquenessScore: real,
    cardinality: Cardinality)

  function CardinalityOf(unique: nat, total: nat): Cardinality {
    if unique as real > total as real * 0.9 then High
    else if unique as real > total as real * 0.5 then Medium
    else Low
  }

  function ColumnScoreOf(df: Frame, j: nat): ColumnScore
    requires WellFormed(df) && j < |df.names|
  {
    var col := Column(df, j);
    var total := |NonNull(col)|;
    var unique := NUnique(col);
    ColumnScore(df.names[j], total, unique, Percent(unique, total), CardinalityOf(unique, total))
  }

  /** The score is the distinct share of the non-null values, in [0, 100], and 0 for a
      column of nulls; the cardinality is 'high' exactly when the score is above 90,
      'medium' when it is above 50 and at most 90, and 'low' otherwise. */
  lemma ColumnScoreProperties(df: Frame, j: nat)
    requires WellFormed(df) && j < |df.names|
    ensures var s := ColumnScoreOf(df, j);
      && s.column == df.names[j]
      && s.uniqueValues <= s.totalValues
      && 0.0 <= s.uniquenessScore <= 100.0
      && (s.totalValues == 0 ==> s.uniquenessScore == 0.0 && s.cardinality == Low)
      && (s.cardinality == High <==> s.uniquenessScore > 90.0)
      && (s.cardinality == Medium <==> 50.0 < s.uniquenessScore <= 90.0)
  {
    UniqueAtMostNonNull(Column(df, j));
    CardinalityMatchesScore(NUnique(Column(df, j)), |NonNull(Column(df, j))|);
  }

  lemma CardinalityMatchesScore(u: nat, t: nat)
    requires u <= t
    ensures CardinalityOf(u, t) == High <==> Percent(u, t) > 90.0
    ensures CardinalityOf(u, t) == Medium <==> 50.0 < Percent(u, t) <= 90.0
  {
    if t > 0 {
      ShareAbove(u, t, 0.9);
      ShareAbove(u, t, 0.5);
    }
  }

  /** `u > t·f` exactly when the percentage `u/t·100` exceeds `100·f`. */
  lemma ShareAbove(u: nat, t: nat, f: real)
    requires t > 0
    ensures u as real > t as real * f <==> Percent(u, t) > 100.0 * f
  {
    var p := Percent(u, t);
    assert p * t as real == 100.0 * u as real;
    if u as real > t as real * f {
      assert p * t as real > 100.0 * f * t as real;
    }
    if p > 100.0 * f {
      assert p * t as real > 100.0 * f * t as real;
    }
  }

  /** `_calculate_uniqueness_scores` */
  method CalculateUniquenessScores(df: Frame) returns (scores: seq<ColumnScore>)
    requires WellFormed(df)
    ensures |scores| == |df.names|
    ensures forall j :: 0 <= j < |scores| ==> scores[j] == ColumnScoreOf(df, j)
  {
    scores := [];
    for j := 0 to |df.names|
      invariant |scores| == j
      invariant forall k :: 0 <= k < j ==> scores[k] == ColumnScoreOf(df, k)
    {
      var col := Column(df, j);
      var total := |NonNull(col)|;
      var unique := NUnique(col);
      var cardinality := if unique as real > total as real * 0.9 then High
        else if unique as real > total as real * 0.5 then Medium
        else Low;
      scores := scores + [ColumnScore(df.names[j], total, unique, Percent(unique, total), cardinality)];
    }
  }

  // ---------------------------------------------------------------- report

  datatype Advice = Deduplicate(count: nat, percentage: real) | LowUniqueness(column: string, uniquePercentage: real)

  /** The low-uniqueness messages for the listed columns, in order. */
  function LowUniquenessAdvice(info: seq<DuplicateValues>): seq<Advice> {
    if info == [] then []
    else
      var d := info[|info| - 1];
      LowUniquenessAdvice(info[..|info| - 1])
        + (if d.uniquePercentage < 50.0 then [LowUniqueness(d.column, d.uniquePercentage)] else [])
  }

  function Recommendations(rows: DuplicateRows, info: seq<DuplicateValues>): seq<Advice> {
    (if rows.duplicateCount > 0 then [Deduplicate(rows.duplicateCount, rows.duplicatePercentage)] else [])
      + LowUniquenessAdvice(info)
  }

  /** `_generate_recommendations` */
  method GenerateRecommendations(rows: DuplicateRows, info: seq<DuplicateValues>) returns (recs: seq<Advice>)
    ensures recs == Recommendations(rows, info)
  {
    recs := [];
    if rows.duplicateCount > 0 {
      recs := recs + [Deduplicate(rows.duplicateCount, rows.duplicatePercentage)];
    }
    for k := 0 to |info|
      invariant recs == (if rows.duplicateCount > 0 then [Deduplicate(rows.duplicateCount, rows.duplicatePercentage)] else [])
        + LowUniquenessAdvice(info[..k])
    {
      assert info[..k + 1][..k] == info[..k];
      if info[k].uniquePercentage < 50.0 {
        recs := recs + [LowUniqueness(info[k].column, info[k].uniquePercentage)];
      }
    }
    assert info[..|info|] == info;
  }

  /** The low-uniqueness message the entry at position `k` earns, if any. */
  predicate LowAt(info: seq<DuplicateValues>, k: nat, a: Advice)
    requires k < |info|
  {
    info[k].uniquePercentage < 50.0 && a == LowUniqueness(info[k].column, info[k].uniquePercentage)
  }

  /** The deduplication message comes first exactly when there are duplicate rows; the
      others name, in order, exactly the listed columns whose distinct share is below 50. */
  lemma RecommendationsShape(rows: DuplicateRows, info: seq<DuplicateValues>)
    ensures var r := Recommendations(rows, info);
      && ((r != [] && r[0].Deduplicate?) <==> rows.duplicateCount > 0)
      && forall a :: a in r && a.LowUniqueness? <==> exists k :: 0 <= k < |info| && LowAt(info, k, a)
  {
    LowUniquenessExact(info);
    var r := Recommendations(rows, info);
    if rows.duplicateCount == 0 && r != [] {
      assert r[0] in LowUniquenessAdvice(info);
    }
  }

  lemma {:induction false} LowUniquenessExact(info: seq<DuplicateValues>)
    ensures forall a :: a in LowUniquenessAdvice(info) <==> exists k :: 0 <= k < |info| && LowAt(info, k, a)
  {
    if info != [] {
      var init := info[..|info| - 1];
      LowUniquenessExact(init);
      assert forall k :: 0 <= k < |init| ==> init[k] == info[k];
      forall a | exists k :: 0 <= k < |info| && LowAt(info, k, a)
        ensures a in LowUniquenessAdvice(info)
      {
        var k :| 0 <= k < |info| && LowAt(info, k, a);
        if k < |init| {
          assert LowAt(init, k, a);
        }
      }
      forall a | a in LowUniquenessAdvice(info)
        ensures exists k :: 0 <= k < |info| && LowAt(info, k, a)
      {
        if a in LowUniquenessAdvice(init) {
          var k :| 0 <= k < |init| && LowAt(init, k, a);
          assert LowAt(info, k, a);
        } else {
          assert LowAt(info, |info| - 1, a);
        }
      }
    }
  }

  datatype Report = Report(
    duplicateRows: DuplicateRows,
    duplicateValues: seq<DuplicateValues>,
    uniquenessScores: seq<ColumnScore>,
    recommendations: seq<Advice>)

  function ReportOf(df: Frame): Report
    requires WellFormed(df)
  {
    var rows := DuplicateRowsOf(df);
    var info := DuplicateValuesUpTo(df, |df.names|);
    var scores := seq(|df.names|, j requires 0 <= j < |df.names| => ColumnScoreOf(df, j));
    Report(rows, info, scores, Recommendations(rows, info))
  }

  /** `UniquenessAnalyzer.analyze` */
  method Analyze(df: Frame) returns (r: Report)
    requires WellFormed(df)
    ensures r == ReportOf(df)
  {
    var rows := DuplicateRowsOf(df);
    var info := CheckDuplicateValues(df);
    var scores := CalculateUniquenessScores(df);
    var recs := GenerateRecommendations(rows, info);
    r := Report(rows, info, scores, recs);
  }
}
