/** The accuracy analyzer: values far outside the interquartile range, foreign-key-like
    column pairs with dangling values, and z-score outliers. The statistics pandas and
    numpy compute (quantiles, mean, standard deviation) are parameters. */
module Accuracy {
  import opened Wrappers
  import opened Strings
  import opened Frames
  import Tally

  /** `(xs op bound).sum()`: how many elements satisfy `p`. */
  function CountWhere(xs: seq<real>, p: real -> bool): (n: nat)
    ensures n <= |xs|
  {
    if xs == [] then 0
    else CountWhere(xs[..|xs| - 1], p) + (if p(xs[|xs| - 1]) then 1 else 0)
  }

  /** The count is positive exactly when some element satisfies `p`. */
  lemma {:induction false} CountWherePositive(xs: seq<real>, p: real -> bool)
    ensures CountWhere(xs, p) > 0 <==> exists i :: 0 <= i < |xs| && p(xs[i])
  {
    if xs != [] {
      var init := xs[..|xs| - 1];
      CountWherePositive(init, p);
      assert forall i :: 0 <= i < |init| ==> init[i] == xs[i];
    }
  }

  /** `col.min()` */
  function Min(xs: seq<real>): (m: real)
    requires xs != []
    ensures m in xs && forall i :: 0 <= i < |xs| ==> m <= xs[i]
  {
    if |xs| == 1 then xs[0]
    else
      var rest := Min(xs[..|xs| - 1]);
      assert forall i :: 0 <= i < |xs| - 1 ==> xs[..|xs| - 1][i] == xs[i];
      if xs[|xs| - 1] < rest then xs[|xs| - 1] else rest
  }

  /** `col.max()` */
  function Max(xs: seq<real>): (m: real)
    requires xs != []
    ensures m in xs && forall i :: 0 <= i < |xs| ==> xs[i] <= m
  {
    if |xs| == 1 then xs[0]
    else
      var rest := Max(xs[..|xs| - 1]);
      assert forall i :: 0 <= i < |xs| - 1 ==> xs[..|xs| - 1][i] == xs[i];
      if xs[|xs| - 1] > rest then xs[|xs| - 1] else rest
  }

  /** `x < bound` */
  function Below(bound: real): real -> bool {
    x => x < bound
  }

  /** `x > bound` */
  function Above(bound: real): real -> bool {
    x => x > bound
  }


  // ---------------------------------------------------------------- range violations

  /** `col.quantile(q)` of a non-empty column, as pandas computes it. */
  type Quantile = (seq<real>, real) -> real

  /** The fences `q1 − 3·IQR` and `q3 + 3·IQR`. */
  function Bounds(q1: real, q3: real): (b: (real, real))
    ensures q1 <= q3 ==> b.0 <= q1 && q3 <= b.1
  {
    var iqr := q3 - q1;
    (q1 - 3.0 * iqr, q3 + 3.0 * iqr)
  }

  datatype RangeViolation = RangeViolation(
    column: string,
    belowRangeCount: nat,
    aboveRangeCount: nat,
    lowerBound: real,
    upperBound: real,
    minValue: real,
    maxValue: real)

  /** The finding for a numeric column named `name` whose non-null values are `data`:
      only a column with some value is checked, and it is reported when a value lies
      strictly outside the fences. */
  function RangeViolationOf(name: string, data: seq<real>, quantile: Quantile): Option<RangeViolation> {
    if |data| > 0 then
      var b := Bounds(quantile(data, 0.25), quantile(data, 0.75));
      var below := CountWhere(data, Below(b.0));
      var above := CountWhere(data, Above(b.1));
      if below > 0 || above > 0 then
        Some(RangeViolation(name, below, above, b.0, b.1, Min(data), Max(data)))
      else None
    else None
  }

  /** A column is reported exactly when one of its values lies strictly below the lower
      fence or strictly above the upper one. */
  lemma RangeViolationIff(name: string, data: seq<real>, quantile: Quantile)
    ensures var b := Bounds(quantile(data, 0.25), quantile(data, 0.75));
      RangeViolationOf(name, data, quantile).Some? <==>
        exists i :: 0 <= i < |data| && (data[i] < b.0 || data[i] > b.1)
  {
    var b := Bounds(quantile(data, 0.25), quantile(data, 0.75));
    CountWherePositive(data, Below(b.0));
    CountWherePositive(data, Above(b.1));
    assert forall i :: 0 <= i < |data| ==> Below(b.0)(data[i]) == (data[i] < b.0);
    assert forall i :: 0 <= i < |data| ==> Above(b.1)(data[i]) == (data[i] > b.1);
  }

  /** A reported column carries its name, a positive count, counts that fit the data,
      the data's minimum and maximum, and fences ordered whenever the quartiles are. */
  lemma RangeViolationFacts(name: string, data: seq<real>, quantile: Quantile)
    requires RangeViolationOf(name, data, quantile).Some?
    ensures var v := RangeViolationOf(name, data, quantile).value;
      && v.column == name
      && (v.belowRangeCount > 0 || v.aboveRangeCount > 0)
      && v.belowRangeCount <= |data| && v.aboveRangeCount <= |data|
      && (forall i :: 0 <= i < |data| ==> v.minValue <= data[i] <= v.maxValue)
      && v.minValue in data && v.maxValue in data
      && (quantile(data, 0.25) <= quantile(data, 0.75) ==> v.lowerBound <= v.upperBound)
  {
  }

  /** The finding for the column at index `j`. */
  function RangeViolationFor(df: Frame, j: nat, quantile: Quantile): Option<RangeViolation>
    requires WellFormed(df) && j < |df.names|
  {
    RangeViolationOf(df.names[j], Numbers(Column(df, j)), quantile)
  }

  function RangeViolations(df: Frame, cols: seq<nat>, quantile: Quantile): seq<RangeViolation>
    requires WellFormed(df) && forall i :: 0 <= i < |cols| ==> cols[i] < |df.names|
  {
    if cols == [] then []
    else RangeViolations(df, cols[..|cols| - 1], quantile) + AsSeq(RangeViolationFor(df, cols[|cols| - 1], quantile))
  }

  /** The body of the loop in `_check_range_violations` for one column. */
  method CheckColumnRange(name: string, data: seq<real>, quantile: Quantile) returns (v: Option<RangeViolation>)
    ensures v == RangeViolationOf(name, data, quantile)
  {
    v := None;
    if |data| > 0 {
      var q1 := quantile(data, 0.25);
      var q3 := quantile(data, 0.75);
      var iqr := q3 - q1;
      var lower := q1 - 3.0 * iqr;
      var upper := q3 + 3.0 * iqr;
      var below := CountWhere(data, Below(lower));
      var above := CountWhere(data, Above(upper));
      if below > 0 || above > 0 {
        v := Some(RangeViolation(name, below, above, lower, upper, Min(data), Max(data)));
      }
    }
  }

  /** `_check_range_violations` */
  method CheckRangeViolations(df: Frame, quantile: Quantile) returns (violations: seq<RangeViolation>)
    requires WellFormed(df)
    ensures violations == RangeViolations(df, NumericColumns(df), quantile)
  {
    var cols := NumericColumns(df);
    violations := [];
    for c := 0 to |cols|
      invariant violations == RangeViolations(df, cols[..c], quantile)
    {
      violations := CheckNextRangeColumn(df, cols, c, quantile, violations);
    }
    assert cols[..|cols|] == cols;
  }

  /** One pass of the loop in `_check_range_violations`: column `cols[c]` checked, its
      violation, if any, appended. */
  method CheckNextRangeColumn(df: Frame, cols: seq<nat>, c: nat, quantile: Quantile, found: seq<RangeViolation>)
    returns (r: seq<RangeViolation>)
    requires WellFormed(df) && c < |cols| && forall i :: 0 <= i < |cols| ==> cols[i] < |df.names|
    requires found == RangeViolations(df, cols[..c], quantile)
    ensures r == RangeViolations(df, cols[..c + 1], quantile)
  {
    assert cols[..c + 1][..c] == cols[..c];
    var j := cols[c];
    var v := CheckColumnRange(df.names[j], Numbers(Column(df, j)), quantile);
    r := found;
    if v.Some? {
      r := r + [v.value];
    }
  }

  // ---------------------------------------------------------------- referential integrity

  /** `'_id' in col1.lower() and col2.lower().startswith(col1.replace('_id', ''))` */
  predicate LooksLikeReference(col1: string, col2: string) {
    Contains(Lower(col1), "_id") && StartsWith(Lower(col2), RemoveAll(col1, "_id"))
  }

  /** The distinct non-null values of `c2` missing from `c1`, in order of first appearance. */
  function Orphans(c1: seq<Cell>, c2: seq<Cell>): (r: seq<Cell>)
    ensures forall a, b :: 0 <= a < b < |r| ==> r[a] != r[b]
    ensures forall v :: v in r <==> v in c2 && !v.Null? && v !in c1
  {
    Tally.Distinct(Dangling(NonNull(c2), c1))
  }

  /** The elements of `refs` that do not occur in `c1`, in order. */
  function Dangling(refs: seq<Cell>, c1: seq<Cell>): (r: seq<Cell>)
    ensures forall v :: v in r <==> v in refs && v !in c1
  {
    if refs == [] then []
    else
      var init := refs[..|refs| - 1];
      var last := refs[|refs| - 1];
      assert refs == init + [last];
      Dangling(init, c1) + (if last in c1 then [] else [last])
  }

  datatype IntegrityIssue = IntegrityIssue(key: string, orphanedCount: nat, orphanedSample: seq<Cell>)

  /** The finding for the pair of columns named `col1` and `col2`, holding `c1` and `c2`. */
  function IntegrityIssueOf(col1: string, col2: string, c1: seq<Cell>, c2: seq<Cell>): Option<IntegrityIssue> {
    if LooksLikeReference(col1, col2) then
      var orphans := Orphans(c1, c2);
      if orphans != [] then
        Some(IntegrityIssue(col2 + "_to_" + col1, |orphans|, orphans[..if |orphans| < 5 then |orphans| else 5]))
      else None
    else None
  }

  /** A pair is reported exactly when its names look like a reference and some non-null
      value of the later column is missing from the earlier one; the count is the number
      of such distinct values, and the sample holds between one and five of them. */
  lemma IntegrityIssueProperties(col1: string, col2: string, c1: seq<Cell>, c2: seq<Cell>)
    ensures IntegrityIssueOf(col1, col2, c1, c2).Some? <==>
      && LooksLikeReference(col1, col2)
      && exists i :: 0 <= i < |c2| && !c2[i].Null? && c2[i] !in c1
    ensures IntegrityIssueOf(col1, col2, c1, c2).Some? ==>
      var issue := IntegrityIssueOf(col1, col2, c1, c2).value;
      && issue.key == col2 + "_to_" + col1
      && issue.orphanedCount == |Orphans(c1, c2)| > 0
      && 0 < |issue.orphanedSample| <= 5
      && forall v :: v in issue.orphanedSample ==> !v.Null? && v in c2 && v !in c1
  {
    var orphans := Orphans(c1, c2);
    if orphans != [] {
      assert orphans[0] in c2;
    }
    if exists i :: 0 <= i < |c2| && !c2[i].Null? && c2[i] !in c1 {
      var i :| 0 <= i < |c2| && !c2[i].Null? && c2[i] !in c1;
      assert c2[i] in orphans;
    }
  }

  /** The finding for the column pair (`a`, `b`), `a` before `b`. */
  function IntegrityIssueFor(df: Frame, a: nat, b: nat): Option<IntegrityIssue>
    requires WellFormed(df) && a < b < |df.names|
  {
    IntegrityIssueOf(df.names[a], df.names[b], Column(df, a), Column(df, b))
  }

  /** The outcomes of the pairs (`a`, `b`) with `a` < `b` < `m`, in order of `b`. */
  function PairOutcomes(df: Frame, a: nat, m: nat): (r: seq<Option<IntegrityIssue>>)
    requires WellFormed(df) && a < |df.names| && m <= |df.names|
    ensures |r| == if m <= a + 1 then 0 else m - a - 1
    ensures forall k :: 0 <= k < |r| ==> r[k] == IntegrityIssueFor(df, a, a + 1 + k)
  {
    seq(if m <= a + 1 then 0 else m - a - 1, k requires 0 <= k < m - a - 1 => IntegrityIssueFor(df, a, a + 1 + k))
  }

  /** The issues found among the pairs (`a`, `b`) with `a` < `b` < `m`, in order of `b`. */
  function PairIssues(df: Frame, a: nat, m: nat): seq<IntegrityIssue>
    requires WellFormed(df) && a < |df.names| && m <= |df.names|
  {
    Somes(PairOutcomes(df, a, m))
  }

  /** Checking pair (`a`, `b`) appends its issue, if any, to those of the earlier pairs. */
  lemma PairIssuesNext(df: Frame, a: nat, b: nat)
    requires WellFormed(df) && a < b < |df.names|
    ensures PairIssues(df, a, b + 1) == PairIssues(df, a, b) + AsSeq(IntegrityIssueFor(df, a, b))
  {
    var xs, o := PairOutcomes(df, a, b), IntegrityIssueFor(df, a, b);
    assert PairOutcomes(df, a, b + 1) == xs + [o];
    SomesSnoc(xs, o);
  }

  /** Every issue of a pair whose first column lies before `m`, in loop order. */
  function IntegrityIssues(df: Frame, m: nat): seq<IntegrityIssue>
    requires WellFormed(df) && m <= |df.names|
  {
    if m == 0 then [] else IntegrityIssues(df, m - 1) + PairIssues(df, m - 1, |df.names|)
  }

  /** The keys of a result dict, in order. */
  function IssueKeys(checks: seq<IntegrityIssue>): (r: seq<string>)
    ensures |r| == |checks|
  {
    seq(|checks|, i requires 0 <= i < |checks| => checks[i].key)
  }

  /** `checks[issue.key] = issue`: a key already present keeps its place and takes the new
      value, a new key goes last. */
  function Store(checks: seq<IntegrityIssue>, issue: IntegrityIssue): (r: seq<IntegrityIssue>)
    ensures r != []
  {
    if checks == [] then [issue]
    else if checks[0].key == issue.key then [issue] + checks[1..]
    else [checks[0]] + Store(checks[1..], issue)
  }

  /** An assignment leaves the keys alone when the key is present and appends it otherwise. */
  lemma {:induction false} StoreKeys(checks: seq<IntegrityIssue>, issue: IntegrityIssue)
    ensures IssueKeys(Store(checks, issue)) ==
      if issue.key in IssueKeys(checks) then IssueKeys(checks) else IssueKeys(checks) + [issue.key]
  {
    if checks != [] {
      var ks := IssueKeys(checks);
      assert ks == [checks[0].key] + IssueKeys(checks[1..]);
      if checks[0].key == issue.key {
        assert IssueKeys([issue] + checks[1..]) == ks;
      } else {
        StoreKeys(checks[1..], issue);
        var rest := Store(checks[1..], issue);
        assert IssueKeys([checks[0]] + rest) == [checks[0].key] + IssueKeys(rest);
      }
    }
  }

  /** After an assignment the dict holds the issue, keeps every entry under another key and
      holds nothing else. */
  lemma {:induction false} StoreEntries(checks: seq<IntegrityIssue>, issue: IntegrityIssue)
    ensures issue in Store(checks, issue)
    ensures forall e :: e in Store(checks, issue) ==> e == issue || e in checks
    ensures forall i :: 0 <= i < |checks| && checks[i].key != issue.key ==> checks[i] in Store(checks, issue)
  {
    if checks != [] && checks[0].key != issue.key {
      StoreEntries(checks[1..], issue);
      assert forall i :: 1 <= i < |checks| ==> checks[i] == checks[1..][i - 1];
    }
  }

  /** The dict left by assigning `issues` one after another into `checks`. */
  function StoreAll(checks: seq<IntegrityIssue>, issues: seq<IntegrityIssue>): (r: seq<IntegrityIssue>)
    ensures checks != [] || issues != [] ==> r != []
  {
    if issues == [] then checks else Store(StoreAll(checks, issues[..|issues| - 1]), issues[|issues| - 1])
  }

  /** Assigning two runs of issues is assigning their concatenation. */
  lemma {:induction false} StoreAllAppend(checks: seq<IntegrityIssue>, xs: seq<IntegrityIssue>, ys: seq<IntegrityIssue>)
    ensures StoreAll(checks, xs + ys) == StoreAll(StoreAll(checks, xs), ys)
  {
    if ys == [] {
      assert xs + ys == xs;
    } else {
      var init := ys[..|ys| - 1];
      StoreAllAppend(checks, xs, init);
      assert (xs + ys)[..|xs + ys| - 1] == xs + init;
    }
  }

  /** Whether `issues[k]` is the last issue with its key. */
  predicate LastOfKey(issues: seq<IntegrityIssue>, k: nat)
    requires k < |issues|
  {
    forall l :: k < l < |issues| ==> issues[l].key != issues[k].key
  }

  /** The keys of the dict are the distinct keys assigned, in order of first assignment. */
  lemma {:induction false} StoreAllKeys(issues: seq<IntegrityIssue>)
    ensures IssueKeys(StoreAll([], issues)) == Tally.Distinct(IssueKeys(issues))
  {
    if issues != [] {
      var init, x := issues[..|issues| - 1], issues[|issues| - 1];
      var d, ks := StoreAll([], init), IssueKeys(issues);
      calc {
        IssueKeys(StoreAll([], issues));
        IssueKeys(Store(d, x));
        { StoreKeys(d, x); }
        if x.key in IssueKeys(d) then IssueKeys(d) else IssueKeys(d) + [x.key];
        { StoreAllKeys(init); }
        if x.key in Tally.Distinct(IssueKeys(init)) then Tally.Distinct(IssueKeys(init))
        else Tally.Distinct(IssueKeys(init)) + [x.key];
        { assert ks[..|ks| - 1] == IssueKeys(init) && ks[|ks| - 1] == x.key; }
        Tally.Distinct(ks);
      }
    }
  }

  /** Each key of the dict holds the last issue assigned to it: every issue that no later
      issue overwrites is in the dict ... */
  lemma {:induction false} StoreAllLast(issues: seq<IntegrityIssue>)
    ensures forall k :: 0 <= k < |issues| && LastOfKey(issues, k) ==> issues[k] in StoreAll([], issues)
  {
    if issues != [] {
      var init, x := issues[..|issues| - 1], issues[|issues| - 1];
      StoreAllLast(init);
      var d := StoreAll([], init);
      StoreEntries(d, x);
      forall k | 0 <= k < |init| && LastOfKey(issues, k) ensures issues[k] in Store(d, x) {
        assert issues[k] == init[k] && init[k].key != x.key;
        assert LastOfKey(init, k) by {
          forall l | k < l < |init| ensures init[l].key != init[k].key {
            assert init[l] == issues[l];
          }
        }
        var i :| 0 <= i < |d| && d[i] == init[k];
      }
    }
  }

  /** ... and the dict holds no other issue. */
  lemma StoreAllOnlyLast(issues: seq<IntegrityIssue>, e: IntegrityIssue)
    requires e in StoreAll([], issues)
    ensures exists k :: 0 <= k < |issues| && LastOfKey(issues, k) && issues[k] == e
  {
    var k := LastAssignment(issues, e);
  }

  /** The position of the assignment that left `e` in the dict. */
  lemma {:induction false} LastAssignment(issues: seq<IntegrityIssue>, e: IntegrityIssue) returns (k: nat)
    requires e in StoreAll([], issues)
    ensures k < |issues| && LastOfKey(issues, k) && issues[k] == e
  {
    var init, x := issues[..|issues| - 1], issues[|issues| - 1];
    if e == x {
      k := |issues| - 1;
    } else {
      StoreAllDistinct(init);
      RestOfStore(StoreAll([], init), x, e);
      k := LastAssignment(init, e);
      LastOfKeyExtend(issues, k);
    }
  }

  /** No two entries share a key. */
  predicate KeysDistinct(checks: seq<IntegrityIssue>) {
    forall i, j :: 0 <= i < j < |checks| ==> checks[i].key != checks[j].key
  }

  /** No two entries of the dict share a key. */
  lemma StoreAllDistinct(issues: seq<IntegrityIssue>)
    ensures KeysDistinct(StoreAll([], issues))
  {
    var d := StoreAll([], issues);
    StoreAllKeys(issues);
    assert forall i :: 0 <= i < |d| ==> IssueKeys(d)[i] == d[i].key;
  }

  /** An issue stays the last of its key when one with another key follows. */
  lemma LastOfKeyExtend(issues: seq<IntegrityIssue>, k: nat)
    requires k < |issues| - 1 && LastOfKey(issues[..|issues| - 1], k)
    requires issues[k].key != issues[|issues| - 1].key
    ensures LastOfKey(issues, k)
  {
    var init := issues[..|issues| - 1];
    forall l | k < l < |issues| ensures issues[l].key != issues[k].key {
      if l < |init| {
        assert issues[l] == init[l] && issues[k] == init[k];
      }
    }
  }

  /** With distinct keys, an entry other than the assigned issue survives only under
      another key. */
  lemma {:induction false} RestOfStore(checks: seq<IntegrityIssue>, issue: IntegrityIssue, e: IntegrityIssue)
    requires KeysDistinct(checks)
    requires e in Store(checks, issue) && e != issue
    ensures e in checks && e.key != issue.key
  {
    var t := checks[1..];
    assert forall i :: 0 <= i < |t| ==> t[i] == checks[i + 1];
    assert KeysDistinct(t);
    if checks[0].key == issue.key {
      var j :| 0 <= j < |t| && t[j] == e;
    } else if e != checks[0] {
      RestOfStore(t, issue, e);
    }
  }

  /** The dict `_check_referential_integrity` returns. */
  function IntegrityChecks(df: Frame): seq<IntegrityIssue>
    requires WellFormed(df)
  {
    StoreAll([], IntegrityIssues(df, |df.names|))
  }

  /** The body of the inner loop in `_check_referential_integrity`. */
  method CheckPair(col1: string, col2: string, c1: seq<Cell>, c2: seq<Cell>) returns (issue: Option<IntegrityIssue>)
    ensures issue == IntegrityIssueOf(col1, col2, c1, c2)
  {
    issue := None;
    if Contains(Lower(col1), "_id") && StartsWith(Lower(col2), RemoveAll(col1, "_id")) {
      var orphans := Orphans(c1, c2);
      if orphans != [] {
        var sample := orphans[..if |orphans| < 5 then |orphans| else 5];
        issue := Some(IntegrityIssue(col2 + "_to_" + col1, |orphans|, sample));
      }
    }
  }

  /** `_check_referential_integrity` */
  method CheckReferentialIntegrity(df: Frame) returns (checks: seq<IntegrityIssue>)
    requires WellFormed(df)
    ensures checks == IntegrityChecks(df)
  {
    checks := [];
    for i := 0 to |df.names|
      invariant checks == StoreAll([], IntegrityIssues(df, i))
    {
      StoreAllAppend([], IntegrityIssues(df, i), PairIssues(df, i, |df.names|));
      checks := CheckPairsFrom(df, i, checks);
    }
  }

  /** The inner loop of `_check_referential_integrity`: column `a` against every later one,
      each issue assigned into the dict. */
  method CheckPairsFrom(df: Frame, a: nat, checks: seq<IntegrityIssue>) returns (r: seq<IntegrityIssue>)
    requires WellFormed(df) && a < |df.names|
    ensures r == StoreAll(checks, PairIssues(df, a, |df.names|))
  {
    r := checks;
    for b := a + 1 to |df.names|
      invariant r == StoreAll(checks, PairIssues(df, a, b))
    {
      r := CheckNextPair(df, a, b, checks, r);
    }
  }

  /** One pass of the inner loop: the pair (`a`, `b`) checked, its issue assigned. */
  method CheckNextPair(df: Frame, a: nat, b: nat, checks: seq<IntegrityIssue>, found: seq<IntegrityIssue>)
    returns (r: seq<IntegrityIssue>)
    requires WellFormed(df) && a < b < |df.names|
    requires found == StoreAll(checks, PairIssues(df, a, b))
    ensures r == StoreAll(checks, PairIssues(df, a, b + 1))
  {
    var issue := CheckPair(df.names[a], df.names[b], Column(df, a), Column(df, b));
    PairIssuesNext(df, a, b);
    r := found;
    if issue.Some? {
      StoreAllAppend(checks, PairIssues(df, a, b), [issue.value]);
      r := Store(r, issue.value);
    } else {
      assert PairIssues(df, a, b + 1) == PairIssues(df, a, b);
    }
  }

  // ---------------------------------------------------------------- z-score outliers

  /** `col.mean()` and `col.std()` of a non-empty column, as pandas computes them. */
  type Statistic = seq<real> -> real

  function Abs(x: real): real { if x < 0.0 then -x else x }

  datatype Outlier = Outlier(column: string, count: nat, percentage: real, mean: real, std: real)

  /** `|(x − mean) / std| > 3` */
  function FarFromMean(mean: real, std: real): real -> bool
    requires std > 0.0
  {
    x => Abs((x - mean) / std) > 3.0
  }

  /** `(|(x − mean) / std| > 3).sum()`, all zeros when `std` is not positive. */
  function ZOutliers(data: seq<real>, mean: real, std: real): nat {
    if std > 0.0 then CountWhere(data, FarFromMean(mean, std)) else 0
  }

  /** The finding for a numeric column named `name` whose non-null values are `data`. */
  function OutlierOf(name: string, data: seq<real>, mean: Statistic, std: Statistic): Option<Outlier> {
    if |data| > 0 then
      var m, s := mean(data), std(data);
      var count := ZOutliers(data, m, s);
      if count > 0 then Some(Outlier(name, count, Percent(count, |data|), m, s)) else None
    else None
  }

  function OutlierFor(df: Frame, j: nat, mean: Statistic, std: Statistic): Option<Outlier>
    requires WellFormed(df) && j < |df.names|
  {
    OutlierOf(df.names[j], Numbers(Column(df, j)), mean, std)
  }

  /** `|x − m| / s > 3` is `|x − m| > 3·s` for a positive `s`. */
  lemma ZScoreAbove(x: real, m: real, s: real)
    requires s > 0.0
    ensures Abs((x - m) / s) > 3.0 <==> Abs(x - m) > 3.0 * s
  {
    var q := (x - m) / s;
    assert q * s == x - m;
    var d := Abs(q) - 3.0;
    assert Abs(x - m) == Abs(q) * s == 3.0 * s + d * s;
    if d > 0.0 {
      assert d * s > 0.0;
    } else {
      assert d * s <= 0.0;
    }
  }

  /** A zero (or otherwise non-positive) deviation yields no outliers; otherwise a column
      is reported exactly when one of its values lies more than three deviations from
      the mean, with a percentage in (0, 100]. */
  lemma OutlierProperties(name: string, data: seq<real>, mean: Statistic, std: Statistic)
    ensures OutlierOf(name, data, mean, std).Some? <==>
      && data != [] && std(data) > 0.0
      && exists i :: 0 <= i < |data| && Abs(data[i] - mean(data)) > 3.0 * std(data)
    ensures OutlierOf(name, data, mean, std).Some? ==>
      var o := OutlierOf(name, data, mean, std).value;
      o.column == name && 0 < o.count <= |data| && 0.0 < o.percentage <= 100.0
  {
    if data != [] && std(data) > 0.0 {
      var m, s := mean(data), std(data);
      CountWherePositive(data, FarFromMean(m, s));
      forall i | 0 <= i < |data| ensures FarFromMean(m, s)(data[i]) <==> Abs(data[i] - m) > 3.0 * s {
        ZScoreAbove(data[i], m, s);
      }
    }
  }

  function OutliersOver(df: Frame, cols: seq<nat>, mean: Statistic, std: Statistic): seq<Outlier>
    requires WellFormed(df) && forall i :: 0 <= i < |cols| ==> cols[i] < |df.names|
  {
    if cols == [] then []
    else OutliersOver(df, cols[..|cols| - 1], mean, std) + AsSeq(OutlierFor(df, cols[|cols| - 1], mean, std))
  }

  /** The body of the loop in `_detect_statistical_outliers` for one column. */
  method CheckColumnOutliers(name: string, data: seq<real>, mean: Statistic, std: Statistic) returns (o: Option<Outlier>)
    ensures o == OutlierOf(name, data, mean, std)
  {
    o := None;
    if |data| > 0 {
      var m, s := mean(data), std(data);
      var count := if s > 0.0 then CountWhere(data, FarFromMean(m, s)) else 0;
      if count > 0 {
        o := Some(Outlier(name, count, Percent(count, |data|), m, s));
      }
    }
  }

  /** `_detect_statistical_outliers` */
  method DetectStatisticalOutliers(df: Frame, mean: Statistic, std: Statistic) returns (outliers: seq<Outlier>)
    requires WellFormed(df)
    ensures outliers == OutliersOver(df, NumericColumns(df), mean, std)
  {
    var cols := NumericColumns(df);
    outliers := [];
    for c := 0 to |cols|
      invariant outliers == OutliersOver(df, cols[..c], mean, std)
    {
      outliers := CheckNextOutlierColumn(df, cols, c, mean, std, outliers);
    }
    assert cols[..|cols|] == cols;
  }

  /** One pass of the loop in `_detect_statistical_outliers`: column `cols[c]` checked,
      its outlier record, if any, appended. */
  method CheckNextOutlierColumn(df: Frame, cols: seq<nat>, c: nat, mean: Statistic, std: Statistic, found: seq<Outlier>)
    returns (r: seq<Outlier>)
    requires WellFormed(df) && c < |cols| && forall i :: 0 <= i < |cols| ==> cols[i] < |df.names|
    requires found == OutliersOver(df, cols[..c], mean, std)
    ensures r == OutliersOver(df, cols[..c + 1], mean, std)
  {
    assert cols[..c + 1][..c] == cols[..c];
    var j := cols[c];
    var o := CheckColumnOutliers(df.names[j], Numbers(Column(df, j)), mean, std);
    r := found;
    if o.Some? {
      r := r + [o.value];
    }
  }

  // ---------------------------------------------------------------- report

  datatype Advice = ReviewExtremes(columns: nat) | CheckForeignKeys | InvestigateOutliers(columns: nat)

  function Rank(a: Advice): nat {
    match a
    case ReviewExtremes(_) => 0
    case CheckForeignKeys => 1
    case InvestigateOutliers(_) => 2
  }

  /** `_generate_recommendations`: one message per non-empty check, in the order range,
      referential, outliers. */
  function Recommendations(r: seq<RangeViolation>, i: seq<IntegrityIssue>, o: seq<Outlier>): (a: seq<Advice>)
    ensures |a| == (if r != [] then 1 else 0) + (if i != [] then 1 else 0) + (if o != [] then 1 else 0)
    ensures ReviewExtremes(|r|) in a <==> r != []
    ensures CheckForeignKeys in a <==> i != []
    ensures InvestigateOutliers(|o|) in a <==> o != []
    ensures forall x, y :: 0 <= x < y < |a| ==> Rank(a[x]) < Rank(a[y])
  {
    (if r != [] then [ReviewExtremes(|r|)] else [])
      + (if i != [] then [CheckForeignKeys] else [])
      + (if o != [] then [InvestigateOutliers(|o|)] else [])
  }

  datatype Report = Report(
    rangeViolations: seq<RangeViolation>,
    referentialIntegrity: seq<IntegrityIssue>,
    statisticalOutliers: seq<Outlier>,
    recommendations: seq<Advice>)

  function ReportOf(df: Frame, quantile: Quantile, mean: Statistic, std: Statistic): Report
    requires WellFormed(df)
  {
    var r := RangeViolations(df, NumericColumns(df), quantile);
    var i := IntegrityChecks(df);
    var o := OutliersOver(df, NumericColumns(df), mean, std);
    Report(r, i, o, Recommendations(r, i, o))
  }

  /** `AccuracyAnalyzer.analyze` */
  method Analyze(df: Frame, quantile: Quantile, mean: Statistic, std: Statistic) returns (rep: Report)
    requires WellFormed(df)
    ensures rep == ReportOf(df, quantile, mean, std)
  {
    var r := CheckRangeViolations(df, quantile);
    var i := CheckReferentialIntegrity(df);
    var o := DetectStatisticalOutliers(df, mean, std);
    rep := Report(r, i, o, Recommendations(r, i, o));
  }
}
