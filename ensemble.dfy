/** The anomaly ensemble: it runs the isolation forest, LOF and one-class-SVM detectors,
    averages their min-max normalised scores with fixed weights, flags the rows scoring
    above a percentile of the combined scores, and merges the members' feature
    importance with the same weights. The detectors' results and numpy's `percentile`
    are parameters. */
module Ensemble {
  import opened Wrappers
  import opened Frames
  import opened Sorting
  import Detectors

  /** What one member gives for the table: its `detect` result (`None` when it raised),
      and its `get_feature_importance` for given anomaly rows (`None` when that raised). */
  datatype Detector = Detector(
    detection: Option<(seq<bool>, seq<real>)>,
    importance: seq<int> -> Option<seq<(string, real)>>)

  datatype Member = Member(name: string, weight: real, detector: Detector)

  function TotalWeight(ms: seq<Member>): real {
    if ms == [] then 0.0 else TotalWeight(ms[..|ms| - 1]) + ms[|ms| - 1].weight
  }

  /** `self.models` with `self.weights`, in their order. */
  function Members(isolationForest: Detector, lof: Detector, ocsvm: Detector): (ms: seq<Member>)
    ensures |ms| == 3 && ms[0].detector == isolationForest && ms[1].detector == lof && ms[2].detector == ocsvm
    ensures forall k :: 0 <= k < |ms| ==> ms[k].weight >= 0.0
    ensures TotalWeight(ms) == 1.0
  {
    var ms := [Member("isolation_forest", 0.4, isolationForest), Member("lof", 0.3, lof), Member("ocsvm", 0.3, ocsvm)];
    assert ms[..2] == [ms[0], ms[1]];
    assert [ms[0], ms[1]][..1] == [ms[0]];
    assert [ms[0]][..0] == [];
    assert TotalWeight([ms[0]]) == 0.4;
    assert TotalWeight(ms[..2]) == 0.7;
    ms
  }

  /** The LOF or one-class-SVM member for the table `df`, given its fitted model and
      pandas' `mean`. */
  function Fitted(df: Frame, fit: Frame -> Detectors.Fit, mean: Detectors.ColumnMean): (d: Detector)
    requires WellFormed(df)
    ensures d.detection == Some(Detectors.Detect(df, fit))
    ensures forall indices :: d.importance(indices) == Detectors.ImportanceOf(df, indices, mean)
  {
    Detector(
      Some(Detectors.Detect(df, fit)),
      indices => if WellFormed(df) then Detectors.ImportanceOf(df, indices, mean) else None)
  }

  function Zeros(n: nat): (r: seq<real>)
    ensures |r| == n && forall i :: 0 <= i < n ==> r[i] == 0.0
  {
    seq(n, _ => 0.0)
  }

  /** The predictions the ensemble keeps for a member: its own, or `len(df)` falses when
      `detect` raised. */
  function Predictions(d: Detector, n: nat): seq<bool> {
    match d.detection
    case Some(p) => p.0
    case None => seq(n, _ => false)
  }

  /** The scores the ensemble keeps for a member: its own, or `len(df)` zeros when
      `detect` raised. */
  function Scores(d: Detector, n: nat): seq<real> {
    match d.detection
    case Some(p) => p.1
    case None => Zeros(n)
  }

  // ---------------------------------------------------------------- normalisation

  function MinAbs(s: seq<real>): (m: real)
    requires s != []
    ensures forall i :: 0 <= i < |s| ==> m <= Detectors.Abs(s[i])
    ensures exists i :: 0 <= i < |s| && m == Detectors.Abs(s[i])
  {
    if |s| == 1 then Detectors.Abs(s[0])
    else
      var init := s[..|s| - 1];
      var m', x := MinAbs(init), Detectors.Abs(s[|s| - 1]);
      assert forall i :: 0 <= i < |init| ==> init[i] == s[i];
      if x < m' then x else m'
  }

  function MaxAbs(s: seq<real>): (m: real)
    requires s != []
    ensures forall i :: 0 <= i < |s| ==> Detectors.Abs(s[i]) <= m
    ensures exists i :: 0 <= i < |s| && m == Detectors.Abs(s[i])
  {
    if |s| == 1 then Detectors.Abs(s[0])
    else
      var init := s[..|s| - 1];
      var m', x := MaxAbs(init), Detectors.Abs(s[|s| - 1]);
      assert forall i :: 0 <= i < |init| ==> init[i] == s[i];
      if x > m' then x else m'
  }

  /** `_normalize_scores`: the absolute values scaled min-max; all zeros when they are all
      equal. */
  function Normalize(s: seq<real>): (r: seq<real>)
    ensures |r| == |s|
  {
    if s == [] then []
    else
      var lo, hi := MinAbs(s), MaxAbs(s);
      if hi - lo == 0.0 then Zeros(|s|)
      else seq(|s|, i requires 0 <= i < |s| => (Detectors.Abs(s[i]) - lo) / (hi - lo))
  }

  /** `(a - lo) / (hi - lo)` lies in [0, 1] and grows with `a`. */
  lemma ScaledBetween(a: real, b: real, lo: real, hi: real)
    requires lo <= a <= b <= hi && lo < hi
    ensures 0.0 <= (a - lo) / (hi - lo) <= (b - lo) / (hi - lo) <= 1.0
  {
    var d := hi - lo;
    assert (a - lo) / d * d == a - lo;
    assert (b - lo) / d * d == b - lo;
    assert 1.0 * d == d;
  }

  lemma DivSelf(d: real)
    requires d != 0.0
    ensures d / d == 1.0
  {
    assert d / d * d == d;
  }

  /** Normalised scores lie in [0, 1] and keep the order of the absolute values. */
  lemma NormalizeInRange(s: seq<real>)
    ensures forall i :: 0 <= i < |s| ==> 0.0 <= Normalize(s)[i] <= 1.0
    ensures forall i, j :: 0 <= i < |s| && 0 <= j < |s| && Detectors.Abs(s[i]) <= Detectors.Abs(s[j]) ==>
      Normalize(s)[i] <= Normalize(s)[j]
  {
    if s != [] {
      var lo, hi := MinAbs(s), MaxAbs(s);
      var r := Normalize(s);
      if hi - lo != 0.0 {
        forall i, j | 0 <= i < |s| && 0 <= j < |s| && Detectors.Abs(s[i]) <= Detectors.Abs(s[j])
          ensures 0.0 <= r[i] <= r[j] <= 1.0
        {
          ScaledBetween(Detectors.Abs(s[i]), Detectors.Abs(s[j]), lo, hi);
        }
        forall i | 0 <= i < |s| ensures 0.0 <= r[i] <= 1.0 {
          ScaledBetween(Detectors.Abs(s[i]), Detectors.Abs(s[i]), lo, hi);
        }
      }
    }
  }

  /** Equal absolute values normalise to all zeros. */
  lemma NormalizeConstant(s: seq<real>)
    ensures (forall i, j :: 0 <= i < |s| && 0 <= j < |s| ==> Detectors.Abs(s[i]) == Detectors.Abs(s[j])) ==>
      Normalize(s) == Zeros(|s|)
  {
    if s != [] && forall i, j :: 0 <= i < |s| && 0 <= j < |s| ==> Detectors.Abs(s[i]) == Detectors.Abs(s[j]) {
      var a :| 0 <= a < |s| && MinAbs(s) == Detectors.Abs(s[a]);
      var b :| 0 <= b < |s| && MaxAbs(s) == Detectors.Abs(s[b]);
      assert MaxAbs(s) - MinAbs(s) == 0.0;
    }
  }

  /** Otherwise the smallest becomes 0 and the largest 1. */
  lemma NormalizeExtremes(s: seq<real>)
    requires exists i, j :: 0 <= i < |s| && 0 <= j < |s| && Detectors.Abs(s[i]) != Detectors.Abs(s[j])
    ensures exists i :: 0 <= i < |s| && Normalize(s)[i] == 0.0
    ensures exists i :: 0 <= i < |s| && Normalize(s)[i] == 1.0
  {
    var lo, hi := MinAbs(s), MaxAbs(s);
    var r := Normalize(s);
    var a :| 0 <= a < |s| && lo == Detectors.Abs(s[a]);
    var b :| 0 <= b < |s| && hi == Detectors.Abs(s[b]);
    var i, j :| 0 <= i < |s| && 0 <= j < |s| && Detectors.Abs(s[i]) != Detectors.Abs(s[j]);
    assert hi - lo != 0.0;
    assert r[a] == (lo - lo) / (hi - lo) == 0.0;
    DivSelf(hi - lo);
    assert r[b] == (hi - lo) / (hi - lo) == 1.0;
  }

  // ---------------------------------------------------------------- combined scores

  /** Every member's scores have one entry per row, so `+=` does not raise. */
  predicate ScoresFit(ms: seq<Member>, n: nat) {
    forall k :: 0 <= k < |ms| ==> |Scores(ms[k].detector, n)| == n
  }

  /** `score * weight` */
  function Weighted(score: real, w: real): real {
    score * w
  }

  /** `acc += w * z` on arrays of the same length. */
  function AddScaled(acc: seq<real>, w: real, z: seq<real>): (r: seq<real>)
    requires |acc| == |z|
    ensures |r| == |acc| && forall i :: 0 <= i < |acc| ==> r[i] == acc[i] + Weighted(z[i], w)
  {
    seq(|acc|, i requires 0 <= i < |acc| => acc[i] + Weighted(z[i], w))
  }

  /** `ensemble_scores`: the weighted sum of the members' normalised scores. */
  function Combined(ms: seq<Member>, n: nat): (r: seq<real>)
    requires ScoresFit(ms, n)
    ensures |r| == n
  {
    if ms == [] then Zeros(n)
    else
      var m := ms[|ms| - 1];
      AddScaled(Combined(ms[..|ms| - 1], n), m.weight, Normalize(Scores(m.detector, n)))
  }

  lemma BoundStep(acc: real, w: real, z: real, t: real)
    requires 0.0 <= acc <= t && w >= 0.0 && 0.0 <= z <= 1.0
    ensures 0.0 <= acc + Weighted(z, w) <= t + w
  {
    assert z * w <= 1.0 * w;
  }

  /** With non-negative weights every combined score lies between 0 and the total weight. */
  lemma {:induction false} CombinedBounds(ms: seq<Member>, n: nat)
    requires ScoresFit(ms, n)
    requires forall k :: 0 <= k < |ms| ==> ms[k].weight >= 0.0
    ensures forall i :: 0 <= i < n ==> 0.0 <= Combined(ms, n)[i] <= TotalWeight(ms)
  {
    if ms != [] {
      var init, m := ms[..|ms| - 1], ms[|ms| - 1];
      CombinedBounds(init, n);
      var z := Normalize(Scores(m.detector, n));
      NormalizeInRange(Scores(m.detector, n));
      var acc := Combined(init, n);
      assert TotalWeight(ms) == TotalWeight(init) + m.weight;
      forall i | 0 <= i < n ensures 0.0 <= Combined(ms, n)[i] <= TotalWeight(ms) {
        assert Combined(ms, n) == AddScaled(acc, m.weight, z);
        assert Combined(ms, n)[i] == acc[i] + Weighted(z[i], m.weight);
        BoundStep(acc[i], m.weight, z[i], TotalWeight(init));
      }
    }
  }

  /** The weighted-sum loop of `detect_anomalies`; `None` when a member's scores do not
      have one entry per row, where `+=` raises. */
  method CombineScores(ms: seq<Member>, n: nat) returns (r: Option<seq<real>>)
    ensures r.None? <==> !ScoresFit(ms, n)
    ensures r.Some? ==> r.value == Combined(ms, n)
  {
    var scores := Zeros(n);
    for k := 0 to |ms|
      invariant ScoresFit(ms[..k], n) && scores == Combined(ms[..k], n)
    {
      var normalized := Normalize(Scores(ms[k].detector, n));
      if |normalized| != n {
        assert !ScoresFit(ms, n);
        return None;
      }
      CombinedStep(ms, k, n);
      scores := AddScaled(scores, ms[k].weight, normalized);
    }
    assert ms[..|ms|] == ms;
    r := Some(scores);
  }

  /** One more member in the weighted sum. */
  lemma CombinedStep(ms: seq<Member>, k: nat, n: nat)
    requires k < |ms| && ScoresFit(ms[..k], n) && |Scores(ms[k].detector, n)| == n
    ensures ScoresFit(ms[..k + 1], n)
    ensures Combined(ms[..k + 1], n) == AddScaled(Combined(ms[..k], n), ms[k].weight, Normalize(Scores(ms[k].detector, n)))
  {
    var prefix := ms[..k + 1];
    assert prefix[..k] == ms[..k] && prefix[k] == ms[k];
    FitsStep(ms, k, n);
    CombinedLast(prefix, n);
  }

  lemma FitsStep(ms: seq<Member>, k: nat, n: nat)
    requires k < |ms| && ScoresFit(ms[..k], n) && |Scores(ms[k].detector, n)| == n
    ensures ScoresFit(ms[..k + 1], n)
  {
    assert forall i :: 0 <= i < k ==> ms[..k + 1][i] == ms[..k][i];
  }

  lemma CombinedLast(ms: seq<Member>, n: nat)
    requires ms != [] && ScoresFit(ms, n)
    ensures Combined(ms, n) == AddScaled(Combined(ms[..|ms| - 1], n), ms[|ms| - 1].weight, Normalize(Scores(ms[|ms| - 1].detector, n)))
  {
  }

  /** `np.where(flags)[0]`: the positions holding true, in increasing order. */
  function Where(flags: seq<bool>): (r: seq<nat>)
    ensures forall k :: 0 <= k < |r| ==> r[k] < |flags| && flags[r[k]]
    ensures forall i :: 0 <= i < |flags| && flags[i] ==> i in r
    ensures forall a, b :: 0 <= a < b < |r| ==> r[a] < r[b]
  {
    if flags == [] then []
    else
      var init := flags[..|flags| - 1];
      assert forall i :: 0 <= i < |init| ==> init[i] == flags[i];
      if flags[|flags| - 1] then Where(init) + [|flags| - 1] else Where(init)
  }

  /** No true flag, no position. */
  lemma {:induction false} WhereNone(flags: seq<bool>)
    requires forall i :: 0 <= i < |flags| ==> !flags[i]
    ensures Where(flags) == []
  {
    if flags != [] {
      WhereNone(flags[..|flags| - 1]);
    }
  }

  // ---------------------------------------------------------------- importance

  /** A dict kept as its items in insertion order. */
  type Dict = seq<(string, real)>

  function KeyList(d: Dict): (r: seq<string>)
    ensures |r| == |d| && forall i :: 0 <= i < |d| ==> r[i] == d[i].0
  {
    seq(|d|, i requires 0 <= i < |d| => d[i].0)
  }

  predicate DistinctKeys(d: Dict) {
    forall a, b :: 0 <= a < b < |d| ==> d[a].0 != d[b].0
  }

  /** `d.get(key, 0)` */
  function Get(d: Dict, key: string): real {
    if d == [] then 0.0
    else if d[|d| - 1].0 == key then d[|d| - 1].1
    else Get(d[..|d| - 1], key)
  }

  /** `d[key] = v`: the value is replaced in place when the key is present, and the item
      appended otherwise. */
  function Put(d: Dict, key: string, v: real): (r: Dict)
    ensures key in KeyList(d) ==> KeyList(r) == KeyList(d)
    ensures key !in KeyList(d) ==> r == d + [(key, v)]
  {
    if key in KeyList(d) then seq(|d|, i requires 0 <= i < |d| => if d[i].0 == key then (key, v) else d[i])
    else d + [(key, v)]
  }

  lemma {:induction false} GetAt(d: Dict, i: nat)
    requires DistinctKeys(d) && i < |d|
    ensures Get(d, d[i].0) == d[i].1
    decreases |d|
  {
    if i < |d| - 1 {
      GetAt(d[..|d| - 1], i);
    }
  }

  lemma {:induction false} GetAbsent(d: Dict, key: string)
    requires key !in KeyList(d)
    ensures Get(d, key) == 0.0
  {
    if d != [] {
      assert d[|d| - 1].0 == KeyList(d)[|d| - 1];
      var init := d[..|d| - 1];
      assert forall i :: 0 <= i < |init| ==> KeyList(init)[i] == KeyList(d)[i];
      GetAbsent(init, key);
    }
  }

  /** After `d[key] = v` the dict maps `key` to `v` and every other key as before, and its
      keys stay distinct. */
  lemma PutGet(d: Dict, key: string, v: real, other: string)
    requires DistinctKeys(d)
    ensures DistinctKeys(Put(d, key, v))
    ensures Get(Put(d, key, v), key) == v
    ensures other != key ==> Get(Put(d, key, v), other) == Get(d, other)
  {
    var r := Put(d, key, v);
    if key in KeyList(d) {
      var p :| 0 <= p < |d| && KeyList(d)[p] == key;
      assert forall i :: 0 <= i < |d| ==> r[i].0 == d[i].0;
      assert r[p] == (key, v);
      GetAt(r, p);
      if other != key {
        if other in KeyList(d) {
          var q :| 0 <= q < |d| && KeyList(d)[q] == other;
          assert r[q] == d[q];
          GetAt(r, q);
          GetAt(d, q);
        } else {
          GetAbsent(d, other);
          GetAbsent(r, other);
        }
      }
    } else {
      assert r[..|r| - 1] == d;
      forall a, b | 0 <= a < b < |r| ensures r[a].0 != r[b].0 {
        if b == |d| {
          assert KeyList(d)[a] == d[a].0;
        }
      }
    }
  }

  lemma WeightedStep(g: real, t: real, x: real, w: real)
    ensures g + w * t + Weighted(x, w) == g + w * (t + x)
  {
  }

  /** `feature_importance[f] = feature_importance.get(f, 0) + s * w` for every item of
      `imp`, in order. */
  function Merge(acc: Dict, imp: Dict, w: real): Dict {
    if imp == [] then acc
    else
      var r := Merge(acc, imp[..|imp| - 1], w);
      var item := imp[|imp| - 1];
      Put(r, item.0, Get(r, item.0) + Weighted(item.1, w))
  }

  /** The sum of the values `d` holds for `key` (its value, when keys are distinct). */
  function Total(d: Dict, key: string): real {
    if d == [] then 0.0
    else Total(d[..|d| - 1], key) + (if d[|d| - 1].0 == key then d[|d| - 1].1 else 0.0)
  }

  /** The sum of `score * w` over the items of `d` for `key`. */
  function WeightedTotal(d: Dict, key: string, w: real): real {
    if d == [] then 0.0
    else WeightedTotal(d[..|d| - 1], key, w) + (if d[|d| - 1].0 == key then Weighted(d[|d| - 1].1, w) else 0.0)
  }

  /** That is `w` times the sum of the values for `key`. */
  lemma {:induction false} WeightedTotalIsScaled(d: Dict, key: string, w: real)
    ensures WeightedTotal(d, key, w) == w * Total(d, key)
  {
    if d != [] {
      var init := d[..|d| - 1];
      WeightedTotalIsScaled(init, key, w);
      var x := if d[|d| - 1].0 == key then d[|d| - 1].1 else 0.0;
      WeightedStep(0.0, Total(init, key), x, w);
    }
  }

  /** Merging adds the member's weighted importance to every feature, and keeps the keys
      distinct. */
  lemma {:induction false} MergeGet(acc: Dict, imp: Dict, w: real, key: string)
    requires DistinctKeys(acc)
    ensures DistinctKeys(Merge(acc, imp, w))
    ensures Get(Merge(acc, imp, w), key) == Get(acc, key) + WeightedTotal(imp, key, w)
  {
    if imp != [] {
      var init := imp[..|imp| - 1];
      var r := Merge(acc, init, w);
      var item := imp[|imp| - 1];
      var v := Get(r, item.0) + Weighted(item.1, w);
      assert Merge(acc, imp, w) == Put(r, item.0, v);
      MergeGet(acc, init, w, key);
      PutGet(r, item.0, v, key);
    }
  }

  /** The merged dict holds exactly the keys of both, the old ones first and in their
      order (a dict keeps first-insertion order). */
  lemma {:induction false} MergeKeys(acc: Dict, imp: Dict, w: real)
    ensures |KeyList(acc)| <= |KeyList(Merge(acc, imp, w))|
    ensures KeyList(Merge(acc, imp, w))[..|acc|] == KeyList(acc)
    ensures forall key :: key in KeyList(Merge(acc, imp, w)) <==> key in KeyList(acc) || key in KeyList(imp)
  {
    if imp != [] {
      var init := imp[..|imp| - 1];
      var r := Merge(acc, init, w);
      var item := imp[|imp| - 1];
      var r' := Put(r, item.0, Get(r, item.0) + Weighted(item.1, w));
      assert Merge(acc, imp, w) == r';
      MergeKeys(acc, init, w);
      assert KeyList(imp) == KeyList(init) + [item.0];
      if item.0 !in KeyList(r) {
        assert KeyList(r') == KeyList(r) + [item.0];
        assert KeyList(r')[..|acc|] == KeyList(r)[..|acc|];
      }
    }
  }

  /** `feature_importance` after the members: each member whose importance does not raise
      is merged with its weight, in order. */
  function Accumulated(ms: seq<Member>, indices: seq<int>): Dict {
    if ms == [] then []
    else
      var acc := Accumulated(ms[..|ms| - 1], indices);
      var m := ms[|ms| - 1];
      match m.detector.importance(indices)
      case Some(imp) => Merge(acc, imp, m.weight)
      case None => acc
  }

  /** What the members contribute to `key`: each weight times its importance for the key
      (see `WeightedTotalIsScaled`), over the members whose importance does not raise. */
  function Contribution(ms: seq<Member>, indices: seq<int>, key: string): real {
    if ms == [] then 0.0
    else
      var m := ms[|ms| - 1];
      Contribution(ms[..|ms| - 1], indices, key) +
        match m.detector.importance(indices)
        case Some(imp) => WeightedTotal(imp, key, m.weight)
        case None => 0.0
  }

  /** A feature's ensemble importance is the weighted sum of the members' importance for
      it, skipping members that raised; no feature appears twice. */
  lemma {:induction false} AccumulatedGet(ms: seq<Member>, indices: seq<int>, key: string)
    ensures DistinctKeys(Accumulated(ms, indices))
    ensures Get(Accumulated(ms, indices), key) == Contribution(ms, indices, key)
  {
    if ms != [] {
      var init, m := ms[..|ms| - 1], ms[|ms| - 1];
      var acc := Accumulated(init, indices);
      AccumulatedGet(init, indices, key);
      match m.detector.importance(indices)
      case Some(imp) =>
        assert Accumulated(ms, indices) == Merge(acc, imp, m.weight);
        assert Contribution(ms, indices, key) == Contribution(init, indices, key) + WeightedTotal(imp, key, m.weight);
        MergeGet(acc, imp, m.weight, key);
      case None =>
        assert Accumulated(ms, indices) == acc;
    }
  }

  /** A feature appears exactly when some member that did not raise reports it. */
  lemma {:induction false} AccumulatedKeys(ms: seq<Member>, indices: seq<int>, key: string)
    ensures key in KeyList(Accumulated(ms, indices)) <==>
      exists k :: 0 <= k < |ms| && ms[k].detector.importance(indices).Some? &&
        key in KeyList(ms[k].detector.importance(indices).value)
  {
    if ms != [] {
      var init, m := ms[..|ms| - 1], ms[|ms| - 1];
      AccumulatedKeys(init, indices, key);
      assert forall k :: 0 <= k < |init| ==> init[k] == ms[k];
      if m.detector.importance(indices).Some? {
        MergeKeys(Accumulated(init, indices), m.detector.importance(indices).value, m.weight);
      }
    }
  }

  /** The inner loop of the importance accumulation. */
  method MergeInto(acc: Dict, imp: Dict, w: real) returns (r: Dict)
    ensures r == Merge(acc, imp, w)
  {
    r := acc;
    for k := 0 to |imp|
      invariant r == Merge(acc, imp[..k], w)
    {
      assert imp[..k + 1][..k] == imp[..k] && imp[..k + 1][k] == imp[k];
      r := Put(r, imp[k].0, Get(r, imp[k].0) + Weighted(imp[k].1, w));
    }
    assert imp[..|imp|] == imp;
  }

  /** The importance loop of `detect_anomalies` over the members. */
  method AccumulateImportance(ms: seq<Member>, indices: seq<int>) returns (r: Dict)
    ensures r == Accumulated(ms, indices)
  {
    r := [];
    for k := 0 to |ms|
      invariant r == Accumulated(ms[..k], indices)
    {
      assert ms[..k + 1][..k] == ms[..k];
      var importance := ms[k].detector.importance(indices);
      if importance.Some? {
        r := MergeInto(r, importance.value, ms[k].weight);
      }
    }
    assert ms[..|ms|] == ms;
  }

  // ---------------------------------------------------------------- detect_anomalies

  /** numpy's `percentile(scores, q)` */
  type Percentile = (seq<real>, real) -> real

  datatype Report = Report(
    anomalies: seq<nat>,
    scores: seq<real>,
    individual: seq<(string, seq<nat>)>,
    importance: Dict)

  /** `individual_results`: for each member, the rows it flagged. */
  function Individual(ms: seq<Member>, n: nat): (r: seq<(string, seq<nat>)>)
    ensures |r| == |ms|
    ensures forall k :: 0 <= k < |ms| ==> r[k] == (ms[k].name, Where(Predictions(ms[k].detector, n)))
  {
    seq(|ms|, k requires 0 <= k < |ms| => (ms[k].name, Where(Predictions(ms[k].detector, n))))
  }

  /** `threshold` and the anomalous rows for the given combined scores. */
  function Threshold(scores: seq<real>, contamination: real, percentile: Percentile): real {
    percentile(scores, (1.0 - contamination) * 100.0)
  }

  function Flags(scores: seq<real>, threshold: real): (r: seq<bool>)
    ensures |r| == |scores| && forall i :: 0 <= i < |scores| ==> (r[i] <==> scores[i] > threshold)
  {
    seq(|scores|, i requires 0 <= i < |scores| => scores[i] > threshold)
  }

  /** `detect_anomalies(df)` as a value; `None` where it raises. */
  function DetectAnomaliesOf(df: Frame, ms: seq<Member>, contamination: real, percentile: Percentile): Option<Report>
    requires WellFormed(df)
  {
    if NumericPartEmpty(df) then Some(Report([], [], [], []))
    else if !ScoresFit(ms, df.height) then None
    else
      var scores := Combined(ms, df.height);
      var anomalies := Where(Flags(scores, Threshold(scores, contamination, percentile)));
      var importance := if anomalies == [] then [] else Accumulated(ms, anomalies);
      Some(Report(anomalies, scores, Individual(ms, df.height), importance))
  }

  /** `detect_anomalies` */
  method DetectAnomalies(df: Frame, ms: seq<Member>, contamination: real, percentile: Percentile) returns (r: Option<Report>)
    requires WellFormed(df)
    ensures r == DetectAnomaliesOf(df, ms, contamination, percentile)
  {
    if NumericPartEmpty(df) {
      return Some(Report([], [], [], []));
    }
    var n := df.height;
    var scores := CombineScores(ms, n);
    if scores.None? {
      return None;
    }
    var threshold := percentile(scores.value, (1.0 - contamination) * 100.0);
    var anomalies := Where(Flags(scores.value, threshold));
    var importance := [];
    if |anomalies| > 0 {
      importance := AccumulateImportance(ms, anomalies);
    }
    r := Some(Report(anomalies, scores.value, Individual(ms, n), importance));
  }

  /** The report is empty when the numeric part is; the call raises exactly when a
      member's scores do not have one entry per row; otherwise there is one score per
      row, the anomalies are the rows scoring above the percentile threshold in
      increasing order, and the importance is empty without anomalies. */
  lemma DetectAnomaliesProperties(df: Frame, ms: seq<Member>, contamination: real, percentile: Percentile)
    requires WellFormed(df)
    ensures NumericPartEmpty(df) ==> DetectAnomaliesOf(df, ms, contamination, percentile) == Some(Report([], [], [], []))
    ensures !NumericPartEmpty(df) ==>
      (DetectAnomaliesOf(df, ms, contamination, percentile).None? <==>
        exists k :: 0 <= k < |ms| && |Scores(ms[k].detector, df.height)| != df.height)
    ensures !NumericPartEmpty(df) && DetectAnomaliesOf(df, ms, contamination, percentile).Some? ==>
      var r := DetectAnomaliesOf(df, ms, contamination, percentile).value;
      var threshold := Threshold(r.scores, contamination, percentile);
      && |r.scores| == df.height
      && (forall i: nat :: i in r.anomalies <==> i < df.height && r.scores[i] > threshold)
      && (forall a, b :: 0 <= a < b < |r.anomalies| ==> r.anomalies[a] < r.anomalies[b])
      && (r.anomalies == [] ==> r.importance == [])
  {
  }

  /** The rows listed for one member are those it flagged; none when it raised. */
  lemma {:induction false} MemberFlags(d: Detector, n: nat)
    ensures d.detection.Some? ==>
      forall i: nat :: i in Where(Predictions(d, n)) <==> i < |d.detection.value.0| && d.detection.value.0[i]
    ensures d.detection.None? ==> Where(Predictions(d, n)) == []
  {
    if d.detection.None? {
      WhereNone(Predictions(d, n));
    }
  }

  /** `individual_results` names every member in order with the rows it flagged, and no
      row for a member whose `detect` raised. */
  lemma IndividualResults(df: Frame, ms: seq<Member>, contamination: real, percentile: Percentile)
    requires WellFormed(df)
    ensures var r := DetectAnomaliesOf(df, ms, contamination, percentile);
      r.Some? && !NumericPartEmpty(df) ==>
        && |r.value.individual| == |ms|
        && (forall k :: 0 <= k < |ms| ==> r.value.individual[k].0 == ms[k].name)
        && (forall k: nat, i: nat :: k < |ms| && ms[k].detector.detection.Some? ==>
              (i in r.value.individual[k].1 <==> i < |ms[k].detector.detection.value.0| && ms[k].detector.detection.value.0[i]))
        && (forall k :: 0 <= k < |ms| && ms[k].detector.detection.None? ==> r.value.individual[k].1 == [])
  {
    var r := DetectAnomaliesOf(df, ms, contamination, percentile);
    if r.Some? && !NumericPartEmpty(df) {
      assert r.value.individual == Individual(ms, df.height);
      forall k | 0 <= k < |ms| {
        MemberFlags(ms[k].detector, df.height);
      }
    }
  }

  /** With the ensemble's own weights every combined score lies in [0, 1]. */
  lemma ScoresInUnitRange(df: Frame, isolationForest: Detector, lof: Detector, ocsvm: Detector,
                          contamination: real, percentile: Percentile)
    requires WellFormed(df)
    ensures var r := DetectAnomaliesOf(df, Members(isolationForest, lof, ocsvm), contamination, percentile);
      r.Some? ==> forall i :: 0 <= i < |r.value.scores| ==> 0.0 <= r.value.scores[i] <= 1.0
  {
    var ms := Members(isolationForest, lof, ocsvm);
    if !NumericPartEmpty(df) && ScoresFit(ms, df.height) {
      CombinedBounds(ms, df.height);
    }
  }

  /** Where anomalies exist, a feature's ensemble importance is the weighted sum of the
      members' importance for it, over the members that did not raise, and the features
      are those some such member reports, each once. */
  lemma ImportanceIsWeighted(df: Frame, ms: seq<Member>, contamination: real, percentile: Percentile, key: string)
    requires WellFormed(df)
    ensures var r := DetectAnomaliesOf(df, ms, contamination, percentile);
      r.Some? && r.value.anomalies != [] ==>
        && DistinctKeys(r.value.importance)
        && Get(r.value.importance, key) == Contribution(ms, r.value.anomalies, key)
        && (key in KeyList(r.value.importance) <==>
              exists k :: 0 <= k < |ms| && ms[k].detector.importance(r.value.anomalies).Some? &&
                key in KeyList(ms[k].detector.importance(r.value.anomalies).value))
  {
    var r := DetectAnomaliesOf(df, ms, contamination, percentile);
    if r.Some? && r.value.anomalies != [] {
      AccumulatedGet(ms, r.value.anomalies, key);
      AccumulatedKeys(ms, r.value.anomalies, key);
    }
  }
}
