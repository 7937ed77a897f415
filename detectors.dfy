/** The local-outlier-factor and one-class-SVM detectors. Both have the same shape: the
    fitted model labels each row of the numeric columns, and the feature importance
    compares each numeric column's mean over the anomalous rows with its mean over the
    rows `~anomaly_indices` selects. The fitted models and pandas' `mean` are
    parameters. */
module Detectors {
  import opened Wrappers
  import opened Frames
  import opened Sorting

  /** What the fitted model gives for the numeric part of the table: one label per row
      (−1 for an outlier) from `fit_predict`, and the per-row scores
      (`negative_outlier_factor_` or `decision_function`). */
  datatype Fit = Fit(labels: seq<int>, scores: seq<real>)

  /** `detect`: two empty arrays when the numeric part is empty; otherwise a row is
      flagged exactly when its label is −1, and the scores are the model's. */
  function Detect(df: Frame, fit: Frame -> Fit): (r: (seq<bool>, seq<real>))
    requires WellFormed(df)
    ensures NumericPartEmpty(df) ==> r.0 == [] && r.1 == []
    ensures !NumericPartEmpty(df) ==>
      && |r.0| == |fit(df).labels|
      && (forall i :: 0 <= i < |r.0| ==> (r.0[i] <==> fit(df).labels[i] == -1))
      && r.1 == fit(df).scores
  {
    if NumericPartEmpty(df) then ([], [])
    else
      var labels := fit(df).labels;
      (seq(|labels|, i requires 0 <= i < |labels| => labels[i] == -1), fit(df).scores)
  }

  /** `numeric_df.loc[rows, col].mean()` for the column at index `j`; `None` when the
      lookup raises. */
  type ColumnMean = (Frame, nat, seq<int>) -> Option<real>

  /** `~anomaly_indices` on an integer array: the bitwise complement −i−1 of each index,
      which is negative for every row index, not the list of the other rows. */
  function Complement(indices: seq<int>): (r: seq<int>)
    ensures |r| == |indices|
    ensures forall i :: 0 <= i < |r| ==> r[i] == -indices[i] - 1
    ensures forall i :: 0 <= i < |r| && indices[i] >= 0 ==> r[i] < 0
  {
    seq(|indices|, i requires 0 <= i < |indices| => -indices[i] - 1)
  }

  function Abs(x: real): real { if x < 0.0 then -x else x }

  /** `abs(anomaly_mean - normal_mean)` for the column at index `j`. */
  function Gap(df: Frame, j: nat, indices: seq<int>, mean: ColumnMean): (r: Option<real>)
    ensures r.Some? ==> r.value >= 0.0
  {
    match (mean(df, j, indices), mean(df, j, Complement(indices)))
    case (Some(a), Some(n)) => Some(Abs(a - n))
    case _ => None
  }

  /** The unnormalised importance of the given columns, in column order; `None` when a
      lookup raises. */
  function RawImportance(df: Frame, cols: seq<nat>, indices: seq<int>, mean: ColumnMean): (r: Option<seq<(string, real)>>)
    requires forall k :: 0 <= k < |cols| ==> cols[k] < |df.names|
    ensures r.Some? ==> |r.value| == |cols|
    ensures r.Some? ==> forall k :: 0 <= k < |cols| ==> r.value[k].0 == df.names[cols[k]] && r.value[k].1 >= 0.0
  {
    if cols == [] then Some([])
    else
      var j := cols[|cols| - 1];
      match (RawImportance(df, cols[..|cols| - 1], indices, mean), Gap(df, j, indices, mean))
      case (Some(init), Some(g)) => Some(init + [(df.names[j], g)])
      case _ => None
  }

  /** Every value divided by `total`. */
  function Scale(xs: seq<(string, real)>, total: real): (r: seq<(string, real)>)
    requires total > 0.0
    ensures |r| == |xs|
    ensures forall i :: 0 <= i < |xs| ==> r[i] == (xs[i].0, xs[i].1 / total)
  {
    seq(|xs|, i requires 0 <= i < |xs| => (xs[i].0, xs[i].1 / total))
  }

  lemma {:induction false} ScaleSum(xs: seq<(string, real)>, total: real)
    requires total > 0.0
    ensures Sum(Scale(xs, total)) == Sum(xs) / total
  {
    if xs != [] {
      var init := xs[..|xs| - 1];
      ScaleSum(init, total);
      assert Scale(xs, total)[..|xs| - 1] == Scale(init, total);
      assert Sum(init) / total + xs[|xs| - 1].1 / total == (Sum(init) + xs[|xs| - 1].1) / total;
    }
  }

  lemma {:induction false} SumNonNegative(xs: seq<(string, real)>)
    requires forall i :: 0 <= i < |xs| ==> xs[i].1 >= 0.0
    ensures Sum(xs) >= 0.0
    ensures Sum(xs) == 0.0 ==> forall i :: 0 <= i < |xs| ==> xs[i].1 == 0.0
  {
    if xs != [] {
      SumNonNegative(xs[..|xs| - 1]);
    }
  }

  /** `{k: v/total ...} if total > 0`, left as is otherwise. */
  function Normalized(xs: seq<(string, real)>): (r: seq<(string, real)>)
    ensures |r| == |xs|
    ensures forall i :: 0 <= i < |xs| ==> r[i].0 == xs[i].0
  {
    if Sum(xs) > 0.0 then Scale(xs, Sum(xs)) else xs
  }

  /** `get_feature_importance` as a value: empty when the numeric part is empty or there
      are no anomalies. */
  function ImportanceOf(df: Frame, indices: seq<int>, mean: ColumnMean): Option<seq<(string, real)>>
    requires WellFormed(df)
  {
    var cols := NumericColumns(df);
    if NumericPartEmpty(df) || indices == [] then Some([])
    else
      match RawImportance(df, cols, indices, mean)
      case Some(raw) => Some(SortDesc(Normalized(raw)))
      case None => None
  }

  /** The loop of `get_feature_importance` that fills `importance`, over the columns
      `cols`; `None` when a lookup raises. */
  method ComputeRaw(df: Frame, cols: seq<nat>, indices: seq<int>, mean: ColumnMean) returns (r: Option<seq<(string, real)>>)
    requires forall k :: 0 <= k < |cols| ==> cols[k] < |df.names|
    ensures r == RawImportance(df, cols, indices, mean)
  {
    var importance := [];
    for k := 0 to |cols|
      invariant RawImportance(df, cols[..k], indices, mean) == Some(importance)
    {
      assert cols[..k + 1][..k] == cols[..k];
      var j := cols[k];
      var anomalyMean := mean(df, j, indices);
      var normalMean := mean(df, j, Complement(indices));
      if anomalyMean.None? || normalMean.None? {
        assert Gap(df, j, indices, mean).None?;
        RawNoneExtends(df, cols, k + 1, indices, mean);
        return None;
      }
      assert Gap(df, j, indices, mean) == Some(Abs(anomalyMean.value - normalMean.value));
      importance := importance + [(df.names[j], Abs(anomalyMean.value - normalMean.value))];
    }
    assert cols[..|cols|] == cols;
    r := Some(importance);
  }

  /** Once a column's lookup raises, so does the whole computation. */
  lemma {:induction false} RawNoneExtends(df: Frame, cols: seq<nat>, k: nat, indices: seq<int>, mean: ColumnMean)
    requires forall i :: 0 <= i < |cols| ==> cols[i] < |df.names|
    requires 0 < k <= |cols| && Gap(df, cols[k - 1], indices, mean).None?
    ensures RawImportance(df, cols, indices, mean).None?
    decreases |cols| - k
  {
    if k < |cols| {
      RawNoneExtends(df, cols[..|cols| - 1], k, indices, mean);
      assert cols[..|cols| - 1][k - 1] == cols[k - 1];
    } else {
      assert cols[|cols| - 1] == cols[k - 1];
    }
  }

  /** Normalising non-negative values keeps them non-negative and makes them sum to 1
      unless they are all 0. */
  lemma NormalizedFacts(raw: seq<(string, real)>)
    requires forall i :: 0 <= i < |raw| ==> raw[i].1 >= 0.0
    ensures var n := Normalized(raw);
      && (forall i :: 0 <= i < |n| ==> n[i].1 >= 0.0)
      && (Sum(n) == 1.0 || forall i :: 0 <= i < |n| ==> n[i].1 == 0.0)
  {
    SumNonNegative(raw);
    var n := Normalized(raw);
    var t := Sum(raw);
    if t > 0.0 {
      assert n == Scale(raw, t);
      ScaleSum(raw, t);
      assert Sum(n) == t / t == 1.0;
      forall i | 0 <= i < |n| ensures n[i].1 >= 0.0 {
        assert n[i].1 == raw[i].1 / t;
      }
    } else {
      assert n == raw;
    }
  }

  /** `get_feature_importance` */
  method FeatureImportance(df: Frame, indices: seq<int>, mean: ColumnMean) returns (r: Option<seq<(string, real)>>)
    requires WellFormed(df)
    ensures r == ImportanceOf(df, indices, mean)
  {
    if NumericPartEmpty(df) || indices == [] {
      return Some([]);
    }
    var raw := ComputeRaw(df, NumericColumns(df), indices, mean);
    if raw.None? {
      return None;
    }
    r := Some(SortDesc(Normalized(raw.value)));
  }

  /** Sorting the normalised values keeps them non-negative and summing to 1 unless all
      0, and orders them by non-increasing value. */
  lemma SortedNormalizedValues(raw: seq<(string, real)>)
    requires forall k :: 0 <= k < |raw| ==> raw[k].1 >= 0.0
    ensures var r := SortDesc(Normalized(raw));
      && SortedDesc(r)
      && (forall i :: 0 <= i < |r| ==> r[i].1 >= 0.0)
      && (Sum(r) == 1.0 || forall i :: 0 <= i < |r| ==> r[i].1 == 0.0)
  {
    var n := Normalized(raw);
    var r := SortDesc(n);
    NormalizedFacts(raw);
    SortDescSum(n);
    SortDescSameEntries(n);
    forall i | 0 <= i < |r| ensures r[i].1 >= 0.0 {
      var m :| 0 <= m < |n| && n[m] == r[i];
    }
    if Sum(r) != 1.0 {
      forall i | 0 <= i < |r| ensures r[i].1 == 0.0 {
        var m :| 0 <= m < |n| && n[m] == r[i];
      }
    }
  }

  /** Sorting the normalised importance of the columns `cols` keeps one entry per column
      and no other. */
  lemma SortedNormalizedKeys(df: Frame, cols: seq<nat>, raw: seq<(string, real)>)
    requires |raw| == |cols|
    requires forall k :: 0 <= k < |cols| ==> cols[k] < |df.names| && raw[k].0 == df.names[cols[k]]
    ensures |SortDesc(Normalized(raw))| == |cols|
    ensures Keys(SortDesc(Normalized(raw))) == set k | 0 <= k < |cols| :: df.names[cols[k]]
  {
    var n := Normalized(raw);
    SortDescKeys(n);
    assert Keys(n) == Keys(raw);
  }

  /** With numeric columns and anomalies, the importance has one entry per numeric column
      and no other; every value is at least 0; the values sum to 1 unless they are all 0;
      and they are ordered by non-increasing value. */
  lemma ImportanceProperties(df: Frame, indices: seq<int>, mean: ColumnMean)
    requires WellFormed(df)
    ensures (NumericPartEmpty(df) || indices == []) ==> ImportanceOf(df, indices, mean) == Some([])
    ensures ImportanceOf(df, indices, mean).Some? ==>
      var r, cols := ImportanceOf(df, indices, mean).value, NumericColumns(df);
      && SortedDesc(r)
      && (forall i :: 0 <= i < |r| ==> r[i].1 >= 0.0)
      && (Sum(r) == 1.0 || forall i :: 0 <= i < |r| ==> r[i].1 == 0.0)
      && (!NumericPartEmpty(df) && indices != [] ==> |r| == |cols|)
      && (!NumericPartEmpty(df) && indices != [] ==> Keys(r) == set k | 0 <= k < |cols| :: df.names[cols[k]])
  {
    var cols := NumericColumns(df);
    if !NumericPartEmpty(df) && indices != [] && RawImportance(df, cols, indices, mean).Some? {
      var raw := RawImportance(df, cols, indices, mean).value;
      assert ImportanceOf(df, indices, mean) == Some(SortDesc(Normalized(raw)));
      SortedNormalizedValues(raw);
      SortedNormalizedKeys(df, cols, raw);
    }
  }
}
