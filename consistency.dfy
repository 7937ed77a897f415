/** The consistency analyzer: shape patterns of text values, values that differ only in
    case or surrounding whitespace, and columns whose values read as several types. */
module Consistency {
  import opened Wrappers
  import opened Strings
  import opened Frames
  import Tally

  /** `str(val)` for a cell of an object column, whose non-null cells are all text. */
  function TextOf(c: Cell): string {
    if c.Str? then c.text else ""
  }

  function Texts(cells: seq<Cell>): (r: seq<string>)
    ensures |r| == |cells|
    ensures forall i :: 0 <= i < |r| ==> r[i] == TextOf(cells[i])
  {
    seq(|cells|, i requires 0 <= i < |cells| => TextOf(cells[i]))
  }

  // ---------------------------------------------------------------- patterns

  /** `re.sub(r'\d', 'N', s)` */
  function DigitsToN(s: string): string {
    seq(|s|, i requires 0 <= i < |s| => if IsDigit(s[i]) then 'N' else s[i])
  }

  /** `re.sub(r'[a-zA-Z]', 'A', s)` */
  function LettersToA(s: string): string {
    seq(|s|, i requires 0 <= i < |s| => if IsAsciiLetter(s[i]) then 'A' else s[i])
  }

  /** `_extract_pattern`: digits first become 'N', and that 'N', like every other ASCII
      letter, then becomes 'A'; so every digit and letter ends up 'A'. */
  function ExtractPattern(s: string): (r: string)
    ensures |r| == |s|
    ensures forall i :: 0 <= i < |s| ==>
      r[i] == if IsDigit(s[i]) || IsAsciiLetter(s[i]) then 'A' else s[i]
    ensures 'N' !in r
  {
    LettersToA(DigitsToN(s))
  }

  /** A pattern is its own pattern. */
  lemma ExtractPatternIdempotent(s: string)
    ensures ExtractPattern(ExtractPattern(s)) == ExtractPattern(s)
  {
    var p := ExtractPattern(s);
    var q := ExtractPattern(p);
    assert forall i :: 0 <= i < |p| ==> q[i] == p[i];
  }

  /** The patterns of a column's distinct non-null values, in order of first appearance. */
  function PatternsOf(col: seq<Cell>): (r: seq<string>)
    ensures |r| == |Unique(col)|
  {
    var vals := Texts(Unique(col));
    seq(|vals|, i requires 0 <= i < |vals| => ExtractPattern(vals[i]))
  }

  datatype FormatIssue = FormatIssue(column: string, patternCount: nat, patterns: Tally.Counts<string>, score: real)

  /** The format finding for column `j`, if its distinct values show more than one shape. */
  function FormatIssueFor(df: Frame, j: nat): Option<FormatIssue>
    requires WellFormed(df) && j < |df.names|
  {
    var counts := Tally.Of(PatternsOf(Column(df, j)));
    if |counts| > 1 then
      Some(FormatIssue(df.names[j], |counts|, counts, Percent(Tally.MaxCount(counts), Tally.Total(counts))))
    else None
  }

  /** A column is reported exactly when its distinct values show more than one pattern;
      each distinct value is counted once, so the counts sum to the number of distinct
      non-null values; and the score, the share of the commonest pattern, is then
      strictly between 0 and 100. */
  lemma FormatIssueProperties(df: Frame, j: nat)
    requires WellFormed(df) && j < |df.names|
    ensures var ps := PatternsOf(Column(df, j));
      FormatIssueFor(df, j).Some? <==> exists a, b :: 0 <= a < b < |ps| && ps[a] != ps[b]
    ensures FormatIssueFor(df, j).Some? ==>
      var f := FormatIssueFor(df, j).value;
      && f.column == df.names[j]
      && f.patternCount == |f.patterns| > 1
      && Tally.Total(f.patterns) == NUnique(Column(df, j))
      && 0.0 < f.score < 100.0
  {
    TallyShape(PatternsOf(Column(df, j)));
  }

  /** The tally of a list has more than one key exactly when two of its elements
      differ; its counts sum to the list's length; and with several keys the largest
      count is a share strictly between 0 and 100 of the total. */
  lemma TallyShape<T>(ps: seq<T>)
    ensures |Tally.Of(ps)| > 1 <==> exists a, b :: 0 <= a < b < |ps| && ps[a] != ps[b]
    ensures Tally.Total(Tally.Of(ps)) == |ps|
    ensures |Tally.Of(ps)| > 1 ==> 0.0 < Percent(Tally.MaxCount(Tally.Of(ps)), Tally.Total(Tally.Of(ps))) < 100.0
  {
    var counts := Tally.Of(ps);
    Tally.KeysOf(ps);
    Tally.TotalOf(ps);
    var keys := Tally.Keys(counts);
    assert forall i :: 0 <= i < |keys| ==> keys[i] == counts[i].0;
    if |counts| > 1 {
      Tally.MaxBelowTotal(counts);
      assert keys[0] != keys[1];
      assert keys[0] in ps && keys[1] in ps;
      var a :| 0 <= a < |ps| && ps[a] == keys[0];
      var b :| 0 <= b < |ps| && ps[b] == keys[1];
      if a < b { assert ps[a] != ps[b]; } else { assert ps[b] != ps[a]; }
    } else {
      forall a, b | 0 <= a < b < |ps| ensures ps[a] == ps[b] {
        assert ps[a] in keys && ps[b] in keys;
      }
    }
  }

  /** `_check_format_consistency` over the object columns in `cols`. */
  function FormatIssues(df: Frame, cols: seq<nat>): seq<FormatIssue>
    requires WellFormed(df) && forall i :: 0 <= i < |cols| ==> cols[i] < |df.names|
  {
    if cols == [] then []
    else FormatIssues(df, cols[..|cols| - 1]) + AsSeq(FormatIssueFor(df, cols[|cols| - 1]))
  }


  /** `_check_format_consistency`: tallies the patterns of each object column's
      distinct values and keeps the columns with more than one. */
  method CheckFormatConsistency(df: Frame) returns (issues: seq<FormatIssue>)
    requires WellFormed(df)
    ensures issues == FormatIssues(df, ObjectColumns(df))
  {
    var cols := ObjectColumns(df);
    issues := [];
    for c := 0 to |cols|
      invariant issues == FormatIssues(df, cols[..c])
    {
      issues := CheckNextFormatColumn(df, cols, c, issues);
    }
    assert cols[..|cols|] == cols;
  }

  /** One pass of the loop in `_check_format_consistency`: column `cols[c]` tallied, its
      issue, if any, appended. */
  method CheckNextFormatColumn(df: Frame, cols: seq<nat>, c: nat, found: seq<FormatIssue>) returns (r: seq<FormatIssue>)
    requires WellFormed(df) && c < |cols| && forall i :: 0 <= i < |cols| ==> cols[i] < |df.names|
    requires found == FormatIssues(df, cols[..c])
    ensures r == FormatIssues(df, cols[..c + 1])
  {
    assert cols[..c + 1][..c] == cols[..c];
    var issue := CheckFormatColumn(df, cols[c]);
    r := found + AsSeq(issue);
  }

  /** One object column of `_check_format_consistency`: the tally of its patterns,
      reported with the share of the commonest when it has more than one. */
  method CheckFormatColumn(df: Frame, j: nat) returns (issue: Option<FormatIssue>)
    requires WellFormed(df) && j < |df.names|
    ensures issue == FormatIssueFor(df, j)
  {
    var ps := PatternsOf(Column(df, j));
    var counts := Tally.Count(ps);
    issue := None;
    if |counts| > 1 {
      var score := Percent(Tally.MaxCount(counts), Tally.Total(counts));
      issue := Some(FormatIssue(df.names[j], |counts|, counts, score));
    }
  }

  // ---------------------------------------------------------------- values

  /** `str(val).strip().lower()` */
  function Normalize(s: string): string {
    Lower(Strip(s))
  }

  /** The index of the first value of `xs` whose normal form under `norm` is `n`, or -1:
      which value `normalized_vals[n]` holds once the loop has seen `xs`. */
  function FirstWithNorm(xs: seq<string>, n: string, norm: string -> string): (r: int)
    ensures -1 <= r < |xs|
    ensures r == -1 <==> forall i :: 0 <= i < |xs| ==> norm(xs[i]) != n
    ensures r >= 0 ==> norm(xs[r]) == n && forall h :: 0 <= h < r ==> norm(xs[h]) != n
  {
    if xs == [] then -1
    else
      var init := xs[..|xs| - 1];
      var r := FirstWithNorm(init, n, norm);
      if r >= 0 then r
      else if norm(xs[|xs| - 1]) == n then |xs| - 1
      else -1
  }

  /** A pair of values that differ but normalise alike: the first-seen one, then the later. */
  datatype ValuePair = ValuePair(first: string, later: string)

  /** The pairs the loop records over the distinct values `xs`, in order. */
  function ValuePairs(xs: seq<string>, norm: string -> string): seq<ValuePair> {
    if xs == [] then []
    else
      var init := xs[..|xs| - 1];
      var last := xs[|xs| - 1];
      var i := FirstWithNorm(init, norm(last), norm);
      ValuePairs(init, norm) + (if i >= 0 then [ValuePair(init[i], last)] else [])
  }

  /** Whether the value at position `k` normalises like an earlier one. */
  predicate Clashes(xs: seq<string>, k: nat, norm: string -> string)
    requires k < |xs|
  {
    FirstWithNorm(xs[..k], norm(xs[k]), norm) >= 0
  }

  /** The pair recorded for the value at position `k`: the first earlier value with its
      normal form, then the value itself. */
  function PairAt(xs: seq<string>, k: nat, norm: string -> string): ValuePair
    requires k < |xs| && Clashes(xs, k, norm)
  {
    ValuePair(xs[FirstWithNorm(xs[..k], norm(xs[k]), norm)], xs[k])
  }

  /** A pair is recorded exactly for each value whose normal form an earlier value
      already had, and it holds the first such earlier value, then the value itself. */
  lemma ValuePairsExact(xs: seq<string>, norm: string -> string)
    ensures forall p :: p in ValuePairs(xs, norm) <==>
      exists k :: 0 <= k < |xs| && Clashes(xs, k, norm) && p == PairAt(xs, k, norm)
  {
    ValuePairsSound(xs, norm);
    ValuePairsComplete(xs, norm);
  }

  /** The pairs of a list with one more value: those before it, then the pair of the
      new value when it clashes. */
  lemma ValuePairsLast(xs: seq<string>, norm: string -> string)
    requires xs != []
    ensures var last := |xs| - 1;
      ValuePairs(xs, norm) == ValuePairs(xs[..last], norm) + (if Clashes(xs, last, norm) then [PairAt(xs, last, norm)] else [])
  {
    assert xs[..|xs| - 1][..|xs| - 1] == xs[..|xs| - 1];
  }

  /** Whether an earlier value clashes, and its pair, do not depend on later values. */
  lemma ClashesPrefix(xs: seq<string>, k: nat, norm: string -> string)
    requires k < |xs| - 1
    ensures Clashes(xs[..|xs| - 1], k, norm) == Clashes(xs, k, norm)
    ensures Clashes(xs, k, norm) ==> PairAt(xs[..|xs| - 1], k, norm) == PairAt(xs, k, norm)
  {
    assert xs[..|xs| - 1][..k] == xs[..k];
  }

  lemma {:induction false} ValuePairsSound(xs: seq<string>, norm: string -> string)
    ensures forall p :: p in ValuePairs(xs, norm) ==>
      exists k :: 0 <= k < |xs| && Clashes(xs, k, norm) && p == PairAt(xs, k, norm)
  {
    if xs != [] {
      var init, last := xs[..|xs| - 1], |xs| - 1;
      ValuePairsSound(init, norm);
      ValuePairsLast(xs, norm);
      forall p | p in ValuePairs(xs, norm)
        ensures exists k :: 0 <= k < |xs| && Clashes(xs, k, norm) && p == PairAt(xs, k, norm)
      {
        if p in ValuePairs(init, norm) {
          var k :| 0 <= k < |init| && Clashes(init, k, norm) && p == PairAt(init, k, norm);
          ClashesPrefix(xs, k, norm);
        }
      }
    }
  }

  lemma {:induction false} ValuePairsComplete(xs: seq<string>, norm: string -> string)
    ensures forall k :: 0 <= k < |xs| && Clashes(xs, k, norm) ==> PairAt(xs, k, norm) in ValuePairs(xs, norm)
  {
    if xs != [] {
      var init, last := xs[..|xs| - 1], |xs| - 1;
      ValuePairsComplete(init, norm);
      ValuePairsLast(xs, norm);
      forall k | 0 <= k < |xs| && Clashes(xs, k, norm) ensures PairAt(xs, k, norm) in ValuePairs(xs, norm) {
        if k < last {
          ClashesPrefix(xs, k, norm);
          assert PairAt(init, k, norm) in ValuePairs(init, norm);
        }
      }
    }
  }

  datatype ValueIssue = ValueIssue(column: string, pairs: seq<ValuePair>)

  function ValueIssueFor(df: Frame, j: nat): Option<ValueIssue>
    requires WellFormed(df) && j < |df.names|
  {
    var pairs := ValuePairs(Texts(Unique(Column(df, j))), Normalize);
    if pairs != [] then Some(ValueIssue(df.names[j], pairs)) else None
  }

  function ValueIssues(df: Frame, cols: seq<nat>): seq<ValueIssue>
    requires WellFormed(df) && forall i :: 0 <= i < |cols| ==> cols[i] < |df.names|
  {
    if cols == [] then []
    else ValueIssues(df, cols[..|cols| - 1]) + AsSeq(ValueIssueFor(df, cols[|cols| - 1]))
  }

  /** The pairs of one column: `normalized_vals` maps each normal form seen so far to
      the first value that had it. */
  method ScanValues(xs: seq<string>, norm: string -> string) returns (pairs: seq<ValuePair>)
    ensures pairs == ValuePairs(xs, norm)
  {
    var firstSeen: map<string, string> := map[];
    pairs := [];
    for k := 0 to |xs|
      invariant pairs == ValuePairs(xs[..k], norm)
      invariant forall n :: n in firstSeen <==> FirstWithNorm(xs[..k], n, norm) >= 0
      invariant forall n :: n in firstSeen ==> firstSeen[n] == xs[FirstWithNorm(xs[..k], n, norm)]
    {
      assert xs[..k + 1][..k] == xs[..k];
      var n := norm(xs[k]);
      if n in firstSeen {
        pairs := pairs + [ValuePair(firstSeen[n], xs[k])];
      } else {
        firstSeen := firstSeen[n := xs[k]];
      }
    }
    assert xs[..|xs|] == xs;
  }

  /** `_check_value_consistency` */
  method CheckValueConsistency(df: Frame) returns (issues: seq<ValueIssue>)
    requires WellFormed(df)
    ensures issues == ValueIssues(df, ObjectColumns(df))
  {
    var cols := ObjectColumns(df);
    issues := [];
    for c := 0 to |cols|
      invariant issues == ValueIssues(df, cols[..c])
    {
      issues := CheckNextValueColumn(df, cols, c, issues);
    }
    assert cols[..|cols|] == cols;
  }

  /** One pass of the loop in `_check_value_consistency`: column `cols[c]` scanned, its
      issue, if any, appended. */
  method CheckNextValueColumn(df: Frame, cols: seq<nat>, c: nat, found: seq<ValueIssue>) returns (r: seq<ValueIssue>)
    requires WellFormed(df) && c < |cols| && forall i :: 0 <= i < |cols| ==> cols[i] < |df.names|
    requires found == ValueIssues(df, cols[..c])
    ensures r == ValueIssues(df, cols[..c + 1])
  {
    assert cols[..c + 1][..c] == cols[..c];
    var j := cols[c];
    var pairs := ScanValues(Texts(Unique(Column(df, j))), Normalize);
    r := found;
    if pairs != [] {
      r := r + [ValueIssue(df.names[j], pairs)];
    }
  }

  // ---------------------------------------------------------------- types

  datatype ValueType = NumericType | DateType | TextType

  /** `re.match(r'^\d{4}-\d{2}-\d{2}', s)`: the text starts with `dddd-dd-dd`. */
  predicate StartsWithDate(s: string) {
    && |s| >= 10
    && IsDigit(s[0]) && IsDigit(s[1]) && IsDigit(s[2]) && IsDigit(s[3])
    && s[4] == '-'
    && IsDigit(s[5]) && IsDigit(s[6])
    && s[7] == '-'
    && IsDigit(s[8]) && IsDigit(s[9])
  }

  /** `_infer_type`; `parsesAsFloat` stands for whether Python's `float()` accepts the text. */
  function InferType(s: string, parsesAsFloat: string -> bool): (t: ValueType)
    ensures t == NumericType <==> parsesAsFloat(s)
    ensures t == DateType <==> !parsesAsFloat(s) && StartsWithDate(s)
    ensures t == TextType <==> !parsesAsFloat(s) && !StartsWithDate(s)
  {
    if parsesAsFloat(s) then NumericType
    else if StartsWithDate(s) then DateType
    else TextType
  }

  /** The inferred type of every non-null value of a column, duplicates included. */
  function TypesOf(col: seq<Cell>, parsesAsFloat: string -> bool): (r: seq<ValueType>)
    ensures |r| == |NonNull(col)|
  {
    var vals := Texts(NonNull(col));
    seq(|vals|, i requires 0 <= i < |vals| => InferType(vals[i], parsesAsFloat))
  }

  datatype TypeIssue = TypeIssue(column: string, mixedTypes: Tally.Counts<ValueType>, dominantType: ValueType)

  function TypeIssueFor(df: Frame, j: nat, parsesAsFloat: string -> bool): Option<TypeIssue>
    requires WellFormed(df) && j < |df.names|
  {
    var dist := Tally.Of(TypesOf(Column(df, j), parsesAsFloat));
    if |dist| > 1 then Some(TypeIssue(df.names[j], dist, Tally.Dominant(dist))) else None
  }

  /** A column is reported exactly when its values infer to more than one type; the
      counts sum to its non-null values, and the dominant type is one whose count is
      the largest. */
  lemma TypeIssueProperties(df: Frame, j: nat, parsesAsFloat: string -> bool)
    requires WellFormed(df) && j < |df.names|
    ensures var ts := TypesOf(Column(df, j), parsesAsFloat);
      TypeIssueFor(df, j, parsesAsFloat).Some? <==> exists a, b :: 0 <= a < b < |ts| && ts[a] != ts[b]
    ensures TypeIssueFor(df, j, parsesAsFloat).Some? ==>
      var t := TypeIssueFor(df, j, parsesAsFloat).value;
      && t.column == df.names[j]
      && Tally.Total(t.mixedTypes) == |NonNull(Column(df, j))|
      && t.dominantType in TypesOf(Column(df, j), parsesAsFloat)
      && forall i :: 0 <= i < |t.mixedTypes| ==> t.mixedTypes[i].1 <= Tally.Get(t.mixedTypes, t.dominantType)
  {
    var ts := TypesOf(Column(df, j), parsesAsFloat);
    TallyShape(ts);
    var dist := Tally.Of(ts);
    if |dist| > 1 {
      Tally.KeysOf(ts);
      Tally.DominantIsMax(dist);
    }
  }

  function TypeIssues(df: Frame, cols: seq<nat>, parsesAsFloat: string -> bool): seq<TypeIssue>
    requires WellFormed(df) && forall i :: 0 <= i < |cols| ==> cols[i] < |df.names|
  {
    if cols == [] then []
    else TypeIssues(df, cols[..|cols| - 1], parsesAsFloat) + AsSeq(TypeIssueFor(df, cols[|cols| - 1], parsesAsFloat))
  }

  /** `_check_type_consistency`: walks every column, skipping those not of object dtype. */
  method CheckTypeConsistency(df: Frame, parsesAsFloat: string -> bool) returns (issues: seq<TypeIssue>)
    requires WellFormed(df)
    ensures issues == TypeIssues(df, ObjectColumns(df), parsesAsFloat)
  {
    issues := [];
    for j := 0 to |df.names|
      invariant issues == TypeIssues(df, ColumnsOfKind(df, Object, j), parsesAsFloat)
    {
      if df.kinds[j] == Object {
        var issue := CheckTypeColumn(df, j, parsesAsFloat);
        issues := issues + AsSeq(issue);
      }
    }
  }

  /** One object column of `_check_type_consistency`: the tally of its inferred types,
      reported when it has more than one. */
  method CheckTypeColumn(df: Frame, j: nat, parsesAsFloat: string -> bool) returns (issue: Option<TypeIssue>)
    requires WellFormed(df) && j < |df.names|
    ensures issue == TypeIssueFor(df, j, parsesAsFloat)
  {
    var ts := TypesOf(Column(df, j), parsesAsFloat);
    var dist := Tally.Count(ts);
    issue := None;
    if |dist| > 1 {
      issue := Some(TypeIssue(df.names[j], dist, Tally.Dominant(dist)));
    }
  }

  // ---------------------------------------------------------------- report

  datatype Advice = StandardizeFormats(columns: nat) | NormalizeValues(columns: nat) | ConvertTypes(columns: nat)

  /** `_generate_recommendations`: one message per non-empty finding kind, in the order
      format, value, type. */
  function Recommendations(f: seq<FormatIssue>, v: seq<ValueIssue>, t: seq<TypeIssue>): (r: seq<Advice>)
    ensures |r| == (if f != [] then 1 else 0) + (if v != [] then 1 else 0) + (if t != [] then 1 else 0)
    ensures StandardizeFormats(|f|) in r <==> f != []
    ensures NormalizeValues(|v|) in r <==> v != []
    ensures ConvertTypes(|t|) in r <==> t != []
    ensures forall a, b :: 0 <= a < b < |r| ==> Rank(r[a]) < Rank(r[b])
  {
    (if f != [] then [StandardizeFormats(|f|)] else [])
      + (if v != [] then [NormalizeValues(|v|)] else [])
      + (if t != [] then [ConvertTypes(|t|)] else [])
  }

  function Rank(a: Advice): nat {
    match a
    case StandardizeFormats(_) => 0
    case NormalizeValues(_) => 1
    case ConvertTypes(_) => 2
  }

  datatype Report = Report(
    formatConsistency: seq<FormatIssue>,
    valueConsistency: seq<ValueIssue>,
    typeConsistency: seq<TypeIssue>,
    recommendations: seq<Advice>)

  function ReportOf(df: Frame, parsesAsFloat: string -> bool): Report
    requires WellFormed(df)
  {
    var cols := ObjectColumns(df);
    var f := FormatIssues(df, cols);
    var v := ValueIssues(df, cols);
    var t := TypeIssues(df, cols, parsesAsFloat);
    Report(f, v, t, Recommendations(f, v, t))
  }

  /** `ConsistencyAnalyzer.analyze` */
  method Analyze(df: Frame, parsesAsFloat: string -> bool) returns (r: Report)
    requires WellFormed(df)
    ensures r == ReportOf(df, parsesAsFloat)
  {
    var f := CheckFormatConsistency(df);
    var v := CheckValueConsistency(df);
    var t := CheckTypeConsistency(df, parsesAsFloat);
    r := Report(f, v, t, Recommendations(f, v, t));
  }
}
