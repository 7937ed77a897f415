/** The completeness analyzer: how many cells are filled, per table and per column,
    which pairs of columns go missing together, and what to advise. */
module Completeness {
  import opened Wrappers
  import opened Frames

  // ---------------------------------------------------------------- overall

  /** `df.count().sum()` restricted to the first `m` columns. */
  function NonNullCells(df: Frame, m: nat): (n: nat)
    requires WellFormed(df) && m <= |df.names|
    ensures n <= Capacity(df, m)
  {
    if m == 0 then 0 else NonNullCells(df, m - 1) + |NonNull(Column(df, m - 1))|
  }

  /** The number of cells in the first `m` columns. */
  function Capacity(df: Frame, m: nat): nat {
    if m == 0 then 0 else Capacity(df, m - 1) + df.height
  }

  /** `df.size` */
  function CellCount(df: Frame): nat {
    Capacity(df, |df.names|)
  }

  /** The share of filled cells, in percent; an empty frame scores 0. */
  function OverallCompleteness(df: Frame): (r: real)
    requires WellFormed(df)
    ensures 0.0 <= r <= 100.0
    ensures CellCount(df) == 0 ==> r == 0.0
  {
    var total := CellCount(df);
    if total > 0 then
      var filled := NonNullCells(df, |df.names|);
      RatioAtMostOne(filled, total);
      (filled as real / total as real) * 100.0
    else 0.0
  }

  lemma RatioAtMostOne(x: nat, y: nat)
    requires 0 < y && x <= y
    ensures 0.0 <= x as real / y as real <= 1.0
    ensures x as real / y as real == 1.0 <==> x == y
  {
  }

  predicate NoNulls(df: Frame) {
    forall j, i :: 0 <= j < |df.cols| && 0 <= i < |df.cols[j]| ==> !df.cols[j][i].Null?
  }

  lemma {:induction false} NonNullCellsFull(df: Frame, m: nat)
    requires WellFormed(df) && m <= |df.names| && NoNulls(df)
    ensures NonNullCells(df, m) == Capacity(df, m)
  {
    if m > 0 {
      var col := Column(df, m - 1);
      assert NonNullCells(df, m - 1) == Capacity(df, m - 1) by { NonNullCellsFull(df, m - 1); }
      assert |NonNull(col)| == df.height by { NullCountZero(col); }
    }
  }

  lemma {:induction false} NonNullCellsShort(df: Frame, m: nat, j: nat, i: nat)
    requires WellFormed(df) && m <= |df.names| && j < m && i < df.height && df.cols[j][i].Null?
    ensures NonNullCells(df, m) < Capacity(df, m)
  {
    var col := Column(df, m - 1);
    if j == m - 1 {
      assert |NonNull(col)| < df.height by { NullCountPositive(col, i); }
    } else {
      assert NonNullCells(df, m - 1) < Capacity(df, m - 1) by { NonNullCellsShort(df, m - 1, j, i); }
    }
  }

  /** A non-empty frame is 100% complete exactly when it holds no null. */
  lemma CompleteIffNoNulls(df: Frame)
    requires WellFormed(df) && CellCount(df) > 0
    ensures OverallCompleteness(df) == 100.0 <==> NoNulls(df)
  {
    var total := CellCount(df);
    var filled := NonNullCells(df, |df.names|);
    RatioAtMostOne(filled, total);
    if NoNulls(df) {
      NonNullCellsFull(df, |df.names|);
    } else {
      var j, i :| 0 <= j < |df.cols| && 0 <= i < |df.cols[j]| && df.cols[j][i].Null?;
      NonNullCellsShort(df, |df.names|, j, i);
    }
  }

  // ---------------------------------------------------------------- per column

  datatype ColumnStat = ColumnStat(
    name: string,
    missingCount: nat,
    missingPercentage: real,
    completenessScore: real,
    kind: Kind,
    uniqueValues: nat)

  /** The statistics of the column at index `j`. */
  function ColumnStatOf(df: Frame, j: nat): (s: ColumnStat)
    requires WellFormed(df) && j < |df.names|
    ensures s.name == df.names[j] && s.kind == df.kinds[j]
    ensures s.missingCount == NullCount(Column(df, j))
    ensures 0.0 <= s.missingPercentage <= 100.0
    ensures s.missingPercentage + s.completenessScore == 100.0
    ensures df.height == 0 ==> s.missingPercentage == 0.0
    ensures s.missingPercentage == 0.0 <==> s.missingCount == 0
    ensures s.uniqueValues == NUnique(Column(df, j))
  {
    var col := Column(df, j);
    var missing := NullCount(col);
    var pct := Percent(missing, df.height);
    ColumnStat(df.names[j], missing, pct, 100.0 - pct, df.kinds[j], NUnique(col))
  }

  /** `_analyze_columns`: one entry per column, in column order. */
  method AnalyzeColumns(df: Frame) returns (stats: seq<ColumnStat>)
    requires WellFormed(df)
    ensures |stats| == |df.names|
    ensures forall j :: 0 <= j < |stats| ==> stats[j] == ColumnStatOf(df, j)
  {
    stats := [];
    for j := 0 to |df.names|
      invariant |stats| == j
      invariant forall k :: 0 <= k < j ==> stats[k] == ColumnStatOf(df, k)
    {
      var col := Column(df, j);
      var missing := NullCount(col);
      var pct := Percent(missing, df.height);
      stats := stats + [ColumnStat(df.names[j], missing, pct, 100.0 - pct, df.kinds[j], NUnique(col))];
    }
  }

  // ---------------------------------------------------------------- missing patterns

  datatype MissingPattern = MissingPattern(first: string, second: string, overlapCount: nat, similarity: real)

  /** `(missing[a] & missing[b]).sum()`: rows where both cells are null. */
  function Overlap(ca: seq<Cell>, cb: seq<Cell>): (n: nat)
    requires |ca| == |cb|
    ensures n <= NullCount(ca) && n <= NullCount(cb)
  {
    if ca == [] then 0
    else
      Overlap(ca[..|ca| - 1], cb[..|cb| - 1])
        + (if ca[|ca| - 1].Null? && cb[|cb| - 1].Null? then 1 else 0)
  }

  /** The pattern the analyzer records for columns `a` < `b`, if any. */
  function PatternFor(df: Frame, a: nat, b: nat): (p: Option<MissingPattern>)
    requires WellFormed(df) && a < b < |df.names|
    ensures p.Some? ==> p.value.first == df.names[a] && p.value.second == df.names[b]
    ensures p.Some? ==> p.value.overlapCount == Overlap(Column(df, a), Column(df, b)) > 0
    ensures p.Some? ==> 0.5 < p.value.similarity <= 1.0
  {
    var ca, cb := Column(df, a), Column(df, b);
    var overlap := Overlap(ca, cb);
    if overlap > 0 then
      var totalMissing := NullCount(ca) + NullCount(cb);
      var jaccard := if totalMissing > overlap then overlap as real / (totalMissing - overlap) as real else 0.0;
      assert jaccard <= 1.0 by { RatioAtMostOne(overlap, totalMissing - overlap); }
      if jaccard > 0.5 then Some(MissingPattern(df.names[a], df.names[b], overlap, jaccard)) else None
    else None
  }


  /** Rows where at least one of the two cells is null: the union of the missing sets. */
  function EitherNull(ca: seq<Cell>, cb: seq<Cell>): (n: nat)
    requires |ca| == |cb|
    ensures n >= Overlap(ca, cb)
  {
    if ca == [] then 0
    else
      EitherNull(ca[..|ca| - 1], cb[..|cb| - 1])
        + (if ca[|ca| - 1].Null? || cb[|cb| - 1].Null? then 1 else 0)
  }

  /** Inclusion-exclusion on missing rows: the two null counts together count the rows
      missing in both twice and every other missing row once. */
  lemma {:induction false} InclusionExclusion(ca: seq<Cell>, cb: seq<Cell>)
    requires |ca| == |cb|
    ensures NullCount(ca) + NullCount(cb) == Overlap(ca, cb) + EitherNull(ca, cb)
  {
    if ca != [] {
      InclusionExclusion(ca[..|ca| - 1], cb[..|cb| - 1]);
    }
  }

  /** A pair is reported exactly when the two columns share a missing row and the Jaccard
      index of their missing rows, |missing in both| / |missing in either|, exceeds 0.5;
      the reported similarity is that index. */
  lemma PatternForExact(df: Frame, a: nat, b: nat)
    requires WellFormed(df) && a < b < |df.names|
    ensures var both, either := Overlap(Column(df, a), Column(df, b)), EitherNull(Column(df, a), Column(df, b));
      && (PatternFor(df, a, b).Some? <==> both > 0 && either > 0 && both as real / either as real > 0.5)
      && (PatternFor(df, a, b).Some? ==>
            either > 0 && PatternFor(df, a, b).value.similarity == both as real / either as real)
  {
    InclusionExclusion(Column(df, a), Column(df, b));
  }

  /** The outcome of every pair (`a`, `b`) with `a` < `b` < `m`, in order of `b`. */
  function PairOutcomes(df: Frame, a: nat, m: nat): (r: seq<Option<MissingPattern>>)
    requires WellFormed(df) && a < |df.names| && m <= |df.names|
    ensures |r| == if m <= a + 1 then 0 else m - a - 1
    ensures forall k :: 0 <= k < |r| ==> r[k] == PatternFor(df, a, a + 1 + k)
  {
    seq(if m <= a + 1 then 0 else m - a - 1, k requires 0 <= k < m - a - 1 => PatternFor(df, a, a + 1 + k))
  }

  /** Patterns for the pairs (`a`, `b`) with `a` < `b` < `m`, in order of `b`. */
  function PairPatterns(df: Frame, a: nat, m: nat): seq<MissingPattern>
    requires WellFormed(df) && a < |df.names| && m <= |df.names|
  {
    Somes(PairOutcomes(df, a, m))
  }

  /** Checking pair (`a`, `b`) appends its pattern, if any, to those of the earlier pairs. */
  lemma PairPatternsNext(df: Frame, a: nat, b: nat)
    requires WellFormed(df) && a < b < |df.names|
    ensures PairPatterns(df, a, b + 1) == PairPatterns(df, a, b) + AsSeq(PatternFor(df, a, b))
  {
    var xs, o := PairOutcomes(df, a, b), PatternFor(df, a, b);
    assert PairOutcomes(df, a, b + 1) == xs + [o];
    SomesSnoc(xs, o);
  }

  /** Row `a` holds the outcomes of column `a` against every later column, for `a` < `m`. */
  function Outcomes(df: Frame, m: nat): (r: seq<seq<Option<MissingPattern>>>)
    requires WellFormed(df) && m <= |df.names|
    ensures |r| == m && forall a :: 0 <= a < m ==> r[a] == PairOutcomes(df, a, |df.names|)
  {
    seq(m, a requires 0 <= a < m => PairOutcomes(df, a, |df.names|))
  }

  /** Patterns for every pair whose first column lies before `m`, in loop order. */
  function MissingPatterns(df: Frame, m: nat): seq<MissingPattern>
    requires WellFormed(df) && m <= |df.names|
  {
    Flatten(Outcomes(df, m))
  }

  /** The outer loop's next column appends the patterns of its pairs. */
  lemma MissingPatternsNext(df: Frame, a: nat)
    requires WellFormed(df) && a < |df.names|
    ensures MissingPatterns(df, a + 1) == MissingPatterns(df, a) + PairPatterns(df, a, |df.names|)
  {
    var rows := Outcomes(df, a + 1);
    assert rows[..a] == Outcomes(df, a);
  }

  /** `_detect_missing_patterns`: the nested loop over column pairs. */
  method DetectMissingPatterns(df: Frame) returns (patterns: seq<MissingPattern>)
    requires WellFormed(df)
    ensures patterns == MissingPatterns(df, |df.names|)
  {
    patterns := [];
    for i := 0 to |df.names|
      invariant patterns == MissingPatterns(df, i)
    {
      var found := PatternsFrom(df, i);
      MissingPatternsNext(df, i);
      patterns := patterns + found;
    }
  }

  /** The inner loop of `_detect_missing_patterns`: column `a` against every later one. */
  method PatternsFrom(df: Frame, a: nat) returns (found: seq<MissingPattern>)
    requires WellFormed(df) && a < |df.names|
    ensures found == PairPatterns(df, a, |df.names|)
  {
    found := [];
    for b := a + 1 to |df.names|
      invariant found == PairPatterns(df, a, b)
    {
      found := CheckNextPattern(df, a, b, found);
    }
  }

  /** One pass of the inner loop: the pair (`a`, `b`) checked, its pattern appended. */
  method CheckNextPattern(df: Frame, a: nat, b: nat, found: seq<MissingPattern>) returns (r: seq<MissingPattern>)
    requires WellFormed(df) && a < b < |df.names|
    requires found == PairPatterns(df, a, b)
    ensures r == PairPatterns(df, a, b + 1)
  {
    var pattern := CheckPatternPair(df, a, b);
    PairPatternsNext(df, a, b);
    r := found + AsSeq(pattern);
  }

  /** The body of the inner loop: the pattern, if any, of columns `a` < `b`. */
  method CheckPatternPair(df: Frame, a: nat, b: nat) returns (pattern: Option<MissingPattern>)
    requires WellFormed(df) && a < b < |df.names|
    ensures pattern == PatternFor(df, a, b)
  {
    pattern := None;
    var ca, cb := Column(df, a), Column(df, b);
    var overlap := Overlap(ca, cb);
    if overlap > 0 {
      var totalMissing := NullCount(ca) + NullCount(cb);
      var jaccard := if totalMissing > overlap then overlap as real / (totalMissing - overlap) as real else 0.0;
      if jaccard > 0.5 {
        pattern := Some(MissingPattern(df.names[a], df.names[b], overlap, jaccard));
      }
    }
  }

  // The pattern list is read off a table of outcomes; the facts below hold of any table.

  /** The present values of every row of outcomes, row by row. */
  function Flatten<T>(rows: seq<seq<Option<T>>>): seq<T> {
    if rows == [] then [] else Flatten(rows[..|rows| - 1]) + Somes(rows[|rows| - 1])
  }

  /** The positions of the outcomes that are present, in order. */
  ghost function Present<T>(xs: seq<Option<T>>): seq<nat> {
    if xs == [] then [] else Present(xs[..|xs| - 1]) + if xs[|xs| - 1].Some? then [|xs| - 1] else []
  }

  /** `Somes(xs)[k]` is the value of the outcome at `Present(xs)[k]`, and the positions rise. */
  lemma {:induction false} PresentMatch<T>(xs: seq<Option<T>>)
    ensures |Present(xs)| == |Somes(xs)|
    ensures forall k :: 0 <= k < |Present(xs)| ==> Present(xs)[k] < |xs| && xs[Present(xs)[k]] == Some(Somes(xs)[k])
    ensures forall k1, k2 :: 0 <= k1 < k2 < |Present(xs)| ==> Present(xs)[k1] < Present(xs)[k2]
  {
    if xs != [] {
      var init := xs[..|xs| - 1];
      PresentMatch(init);
      assert forall i :: 0 <= i < |init| ==> init[i] == xs[i];
    }
  }

  /** The (row, position) of each present outcome, row by row. */
  ghost function Positions<T>(rows: seq<seq<Option<T>>>): seq<(nat, nat)> {
    if rows == [] then []
    else
      var at := Present(rows[|rows| - 1]);
      Positions(rows[..|rows| - 1]) + seq(|at|, k requires 0 <= k < |at| => (|rows| - 1, at[k]))
  }

  /** `Flatten(rows)[k]` is the value of the outcome at `Positions(rows)[k]`, and the
      positions rise in lexicographic order. */
  lemma {:induction false} PositionsMatch<T>(rows: seq<seq<Option<T>>>)
    ensures var ix, vs := Positions(rows), Flatten(rows);
      && |ix| == |vs|
      && (forall k :: 0 <= k < |ix| ==>
            ix[k].0 < |rows| && ix[k].1 < |rows[ix[k].0]| && rows[ix[k].0][ix[k].1] == Some(vs[k]))
      && (forall k1, k2 :: 0 <= k1 < k2 < |ix| ==>
            ix[k1].0 < ix[k2].0 || (ix[k1].0 == ix[k2].0 && ix[k1].1 < ix[k2].1))
  {
    if rows != [] {
      var init, last := rows[..|rows| - 1], rows[|rows| - 1];
      PositionsMatch(init);
      PresentMatch(last);
      assert forall i :: 0 <= i < |init| ==> init[i] == rows[i];
      var p1, at := Positions(init), Present(last);
      var ix, vs := Positions(rows), Flatten(rows);
      assert |ix| == |p1| + |at|;
      forall k | |p1| <= k < |ix|
        ensures ix[k] == (|rows| - 1, at[k - |p1|]) && vs[k] == Somes(last)[k - |p1|]
      {
      }
    }
  }

  /** The column pairs (`a`, `b`) behind the recorded patterns, in loop order. */
  ghost function PatternIndices(df: Frame): (r: seq<(nat, nat)>)
    requires WellFormed(df)
  {
    var ix := Positions(Outcomes(df, |df.names|));
    seq(|ix|, k requires 0 <= k < |ix| => (ix[k].0, ix[k].0 + 1 + ix[k].1))
  }

  /** Pattern `k` is the one recorded for the `k`-th column pair, and the pairs are
      columns `a` < `b` in the loops' lexicographic order. */
  lemma PatternIndicesMatch(df: Frame)
    requires WellFormed(df)
    ensures var ix, ps := PatternIndices(df), MissingPatterns(df, |df.names|);
      && |ix| == |ps|
      && (forall k :: 0 <= k < |ix| ==> ix[k].0 < ix[k].1 < |df.names| && PatternFor(df, ix[k].0, ix[k].1) == Some(ps[k]))
      && (forall k1, k2 :: 0 <= k1 < k2 < |ix| ==>
            ix[k1].0 < ix[k2].0 || (ix[k1].0 == ix[k2].0 && ix[k1].1 < ix[k2].1))
  {
    var rows := Outcomes(df, |df.names|);
    PositionsMatch(rows);
    var pos, ix := Positions(rows), PatternIndices(df);
    forall k | 0 <= k < |ix|
      ensures rows[pos[k].0] == PairOutcomes(df, pos[k].0, |df.names|)
    {
    }
  }

  /** Every recorded pattern joins two different columns, the first strictly before the
      second, with a positive overlap and a similarity in (0.5, 1]. */
  lemma MissingPatternProperties(df: Frame)
    requires WellFormed(df)
    ensures forall p :: p in MissingPatterns(df, |df.names|) ==>
      && p.overlapCount > 0 && 0.5 < p.similarity <= 1.0
      && exists a, b :: 0 <= a < b < |df.names| && p.first == df.names[a] && p.second == df.names[b]
  {
    var ps, ix := MissingPatterns(df, |df.names|), PatternIndices(df);
    PatternIndicesMatch(df);
    forall p | p in ps
      ensures p.overlapCount > 0 && 0.5 < p.similarity <= 1.0
      ensures exists a, b :: 0 <= a < b < |df.names| && p.first == df.names[a] && p.second == df.names[b]
    {
      var k :| 0 <= k < |ps| && ps[k] == p;
      assert PatternFor(df, ix[k].0, ix[k].1) == Some(p);
    }
  }

  /** No pair of columns is recorded twice. */
  lemma MissingPatternsDistinct(df: Frame)
    requires WellFormed(df)
    ensures forall k1, k2 :: 0 <= k1 < k2 < |MissingPatterns(df, |df.names|)| ==>
      (MissingPatterns(df, |df.names|)[k1].first, MissingPatterns(df, |df.names|)[k1].second)
        != (MissingPatterns(df, |df.names|)[k2].first, MissingPatterns(df, |df.names|)[k2].second)
  {
    var ps, ix := MissingPatterns(df, |df.names|), PatternIndices(df);
    PatternIndicesMatch(df);
    forall k1, k2 | 0 <= k1 < k2 < |ps| ensures (ps[k1].first, ps[k1].second) != (ps[k2].first, ps[k2].second) {
      assert PatternFor(df, ix[k1].0, ix[k1].1) == Some(ps[k1]);
      assert PatternFor(df, ix[k2].0, ix[k2].1) == Some(ps[k2]);
      if ix[k1].0 < ix[k2].0 {
        assert df.names[ix[k1].0] != df.names[ix[k2].0];
      } else {
        assert df.names[ix[k1].1] != df.names[ix[k2].1];
      }
    }
  }

  // ---------------------------------------------------------------- recommendations

  datatype Advice =
    | LowOverall(overall: real)
    | DropOrImpute(column: string, missing: real)
    | Impute(column: string, missing: real)

  /** The one message, if any, a column earns. */
  function AdviceFor(s: ColumnStat): Option<Advice> {
    if s.missingPercentage > 50.0 then Some(DropOrImpute(s.name, s.missingPercentage))
    else if s.missingPercentage > 20.0 then Some(Impute(s.name, s.missingPercentage))
    else None
  }

  function ColumnAdvice(stats: seq<ColumnStat>): seq<Advice> {
    if stats == [] then []
    else ColumnAdvice(stats[..|stats| - 1]) + AsSeq(AdviceFor(stats[|stats| - 1]))
  }

  function Recommendations(overall: real, stats: seq<ColumnStat>): seq<Advice> {
    (if overall < 90.0 then [LowOverall(overall)] else []) + ColumnAdvice(stats)
  }

  /** `_generate_recommendations` */
  method GenerateRecommendations(overall: real, stats: seq<ColumnStat>) returns (recs: seq<Advice>)
    ensures recs == Recommendations(overall, stats)
  {
    recs := [];
    if overall < 90.0 {
      recs := recs + [LowOverall(overall)];
    }
    for k := 0 to |stats|
      invariant recs == (if overall < 90.0 then [LowOverall(overall)] else []) + ColumnAdvice(stats[..k])
    {
      assert stats[..k + 1][..k] == stats[..k];
      var s := stats[k];
      if s.missingPercentage > 50.0 {
        recs := recs + [DropOrImpute(s.name, s.missingPercentage)];
      } else if s.missingPercentage > 20.0 {
        recs := recs + [Impute(s.name, s.missingPercentage)];
      }
    }
    assert stats[..|stats|] == stats;
  }

  /** The indices of the columns more than `limit` percent missing, in column order. */
  function Flagged(stats: seq<ColumnStat>, limit: real): (r: seq<nat>)
    ensures forall i :: 0 <= i < |r| ==> r[i] < |stats|
    ensures forall a, b :: 0 <= a < b < |r| ==> r[a] < r[b]
    ensures forall k: nat :: k < |stats| ==> (k in r <==> stats[k].missingPercentage > limit)
  {
    if stats == [] then []
    else
      var init := stats[..|stats| - 1];
      var f := Flagged(init, limit);
      assert forall k: nat :: k < |init| ==> init[k] == stats[k];
      if stats[|stats| - 1].missingPercentage > limit then f + [|stats| - 1] else f
  }

  /** The column messages are one per column more than 20% missing, in column order:
      "drop or impute" above 50%, otherwise "impute". */
  lemma {:induction false} ColumnAdviceExact(stats: seq<ColumnStat>)
    ensures |ColumnAdvice(stats)| == |Flagged(stats, 20.0)|
    ensures forall i :: 0 <= i < |Flagged(stats, 20.0)| ==>
      var s := stats[Flagged(stats, 20.0)[i]];
      ColumnAdvice(stats)[i] ==
        if s.missingPercentage > 50.0 then DropOrImpute(s.name, s.missingPercentage)
        else Impute(s.name, s.missingPercentage)
  {
    if stats != [] {
      var init, last := stats[..|stats| - 1], stats[|stats| - 1];
      ColumnAdviceExact(init);
      var c, f := ColumnAdvice(init), Flagged(init, 20.0);
      assert ColumnAdvice(stats) == c + AsSeq(AdviceFor(last));
      assert Flagged(stats, 20.0) == f + if last.missingPercentage > 20.0 then [|stats| - 1] else [];
      var r, g := ColumnAdvice(stats), Flagged(stats, 20.0);
      forall i | 0 <= i < |g|
        ensures r[i] == if stats[g[i]].missingPercentage > 50.0 then DropOrImpute(stats[g[i]].name, stats[g[i]].missingPercentage)
          else Impute(stats[g[i]].name, stats[g[i]].missingPercentage)
      {
        if i < |f| {
          assert g[i] == f[i] && r[i] == c[i] && stats[f[i]] == init[f[i]];
        }
      }
    }
  }

  /** The overall message is present exactly when overall completeness is below 90, and
      then it comes first; no other message is an overall one. */
  lemma RecommendationsOrder(overall: real, stats: seq<ColumnStat>)
    ensures var r := Recommendations(overall, stats);
      && ((r != [] && r[0] == LowOverall(overall)) <==> overall < 90.0)
      && forall k :: 0 < k < |r| ==> !r[k].LowOverall?
  {
    var r := Recommendations(overall, stats);
    ColumnAdviceExact(stats);
    var c := ColumnAdvice(stats);
    assert forall i :: 0 <= i < |c| ==> !c[i].LowOverall?;
    if overall >= 90.0 {
      assert r == c;
    }
  }

  // ---------------------------------------------------------------- the analyzer

  datatype Report = Report(
    overall: real,
    columns: seq<ColumnStat>,
    patterns: seq<MissingPattern>,
    recommendations: seq<Advice>)

  function ColumnStats(df: Frame): (r: seq<ColumnStat>)
    requires WellFormed(df)
    ensures |r| == |df.names|
  {
    seq(|df.names|, j requires 0 <= j < |df.names| => ColumnStatOf(df, j))
  }

  function ReportOf(df: Frame): Report
    requires WellFormed(df)
  {
    var overall := OverallCompleteness(df);
    var stats := ColumnStats(df);
    Report(overall, stats, MissingPatterns(df, |df.names|), Recommendations(overall, stats))
  }

  /** `CompletenessAnalyzer.analyze` */
  method Analyze(df: Frame) returns (r: Report)
    requires WellFormed(df)
    ensures r == ReportOf(df)
  {
    var overall := OverallCompleteness(df);
    var stats := AnalyzeColumns(df);
    assert stats == ColumnStats(df);
    var patterns := DetectMissingPatterns(df);
    var recs := GenerateRecommendations(overall, stats);
    r := Report(overall, stats, patterns, recs);
  }
}
