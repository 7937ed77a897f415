/** A loaded table (a pandas DataFrame) and the column operations the analyzers use:
    `isnull`, `dropna`, `unique`, `nunique`, `select_dtypes` and `duplicated`. */
module Frames {

  datatype Cell = Null | Num(value: real) | Str(text: string)

  /** `numeric` covers pandas' int64/float64 dtypes, `Object` its `object` dtype. */
  datatype Kind = Numeric | Object

  /** Stored column by column: `cols[j]` is the column named `names[j]`, of `height` cells. */
  datatype Frame = Frame(names: seq<string>, kinds: seq<Kind>, height: nat, cols: seq<seq<Cell>>)

  predicate Fits(k: Kind, c: Cell) {
    c.Null? || (k == Numeric && c.Num?) || (k == Object && c.Str?)
  }

  predicate ColumnFits(k: Kind, col: seq<Cell>) {
    forall i :: 0 <= i < |col| ==> Fits(k, col[i])
  }

  predicate DistinctNames(names: seq<string>) {
    forall a, b :: 0 <= a < b < |names| ==> names[a] != names[b]
  }

  /** One kind and one column per name, every column `height` cells long and of its
      kind, and distinct column names (pandas' readers rename repeated headers). */
  predicate WellFormed(df: Frame) {
    && |df.kinds| == |df.names|
    && |df.cols| == |df.names|
    && (forall j :: 0 <= j < |df.cols| ==> |df.cols[j]| == df.height && ColumnFits(df.kinds[j], df.cols[j]))
    && DistinctNames(df.names)
  }

  /** `df[name]` for the column at index `j`. */
  function Column(df: Frame, j: nat): (col: seq<Cell>)
    requires WellFormed(df) && j < |df.names|
    ensures |col| == df.height
    ensures ColumnFits(df.kinds[j], col)
  {
    df.cols[j]
  }

  /** `df.iloc[i]`: the cells of row `i`, in column order. */
  function Row(df: Frame, i: nat): (r: seq<Cell>)
    requires WellFormed(df) && i < df.height
    ensures |r| == |df.names|
    ensures forall j :: 0 <= j < |r| ==> r[j] == df.cols[j][i]
  {
    seq(|df.names|, j requires 0 <= j < |df.names| => df.cols[j][i])
  }

  /** `df.iloc[i]` for every row. */
  function Rows(df: Frame): (r: seq<seq<Cell>>)
    requires WellFormed(df)
    ensures |r| == df.height
    ensures forall i :: 0 <= i < |r| ==> r[i] == Row(df, i)
  {
    seq(df.height, i requires 0 <= i < df.height => Row(df, i))
  }

  /** `part / whole * 100 if whole > 0 else 0`, the analyzers' percentage. */
  function Percent(part: nat, whole: nat): (r: real)
    ensures 0.0 <= r
    ensures part <= whole ==> r <= 100.0
    ensures part < whole ==> r < 100.0
    ensures r == 0.0 <==> (whole == 0 || part == 0)
    ensures 0 < whole == part ==> r == 100.0
    ensures whole > 0 ==> r * whole as real == 100.0 * part as real
  {
    if whole > 0 then
      var q := part as real / whole as real;
      assert q * whole as real == part as real;
      assert part <= whole ==> q <= 1.0;
      assert part < whole ==> q < 1.0;
      q * 100.0
    else 0.0
  }

  /** The shares of a part and of the rest of a non-empty whole add up to 100. */
  lemma PercentComplement(part: nat, whole: nat)
    requires part <= whole && whole > 0
    ensures Percent(part, whole) + Percent(whole - part, whole) == 100.0
  {
    var w, p := whole as real, part as real;
    assert (whole - part) as real == w - p;
    assert p / w + (w - p) / w == w / w == 1.0;
    assert p / w * 100.0 + (w - p) / w * 100.0 == (p / w + (w - p) / w) * 100.0;
  }

  /** `col.isnull().sum()` */
  function NullCount(col: seq<Cell>): (n: nat)
    ensures n <= |col|
  {
    if col == [] then 0
    else NullCount(col[..|col| - 1]) + (if col[|col| - 1].Null? then 1 else 0)
  }

  /** `col.dropna()` */
  function NonNull(col: seq<Cell>): (r: seq<Cell>)
    ensures |r| + NullCount(col) == |col|
    ensures forall v {:trigger v in r} :: v in r <==> v in col && !v.Null?
  {
    if col == [] then []
    else
      var init := col[..|col| - 1];
      assert col == init + [col[|col| - 1]];
      NonNull(init) + (if col[|col| - 1].Null? then [] else [col[|col| - 1]])
  }

  /** `col.dropna().unique()`: the distinct non-null values in order of first appearance. */
  function Unique(col: seq<Cell>): (r: seq<Cell>)
    ensures forall i, j :: 0 <= i < j < |r| ==> r[i] != r[j]
    ensures forall v {:trigger v in r} :: v in r <==> v in col && !v.Null?
  {
    if col == [] then []
    else
      var init := col[..|col| - 1];
      var last := col[|col| - 1];
      assert col == init + [last];
      var u := Unique(init);
      if last.Null? || last in u then u else u + [last]
  }

  /** A column with a null in it has a positive null count. */
  lemma {:induction false} NullCountPositive(col: seq<Cell>, i: nat)
    requires i < |col| && col[i].Null?
    ensures NullCount(col) > 0
  {
    if i < |col| - 1 {
      NullCountPositive(col[..|col| - 1], i);
    }
  }

  /** A column without nulls has a null count of zero. */
  lemma {:induction false} NullCountZero(col: seq<Cell>)
    requires forall i :: 0 <= i < |col| ==> !col[i].Null?
    ensures NullCount(col) == 0
  {
    if col != [] {
      NullCountZero(col[..|col| - 1]);
    }
  }

  /** `col.nunique()` */
  function NUnique(col: seq<Cell>): nat {
    |Unique(col)|
  }

  /** A column has no more distinct values than non-null values. */
  lemma {:induction false} UniqueAtMostNonNull(col: seq<Cell>)
    ensures |Unique(col)| <= |NonNull(col)|
  {
    if col != [] {
      UniqueAtMostNonNull(col[..|col| - 1]);
    }
  }

  /** The numbers of a numeric column, nulls dropped. */
  function Numbers(col: seq<Cell>): (r: seq<real>)
    ensures |r| <= |col|
  {
    if col == [] then []
    else
      Numbers(col[..|col| - 1]) + (if col[|col| - 1].Num? then [col[|col| - 1].value] else [])
  }

  lemma {:induction false} NumbersOfNumeric(col: seq<Cell>)
    requires ColumnFits(Numeric, col)
    ensures |Numbers(col)| == |NonNull(col)|
  {
    if col != [] {
      NumbersOfNumeric(col[..|col| - 1]);
    }
  }

  /** `df.select_dtypes(include=[kind]).columns`, as column indices in frame order. */
  function ColumnsOfKind(df: Frame, k: Kind, m: nat): (r: seq<nat>)
    requires WellFormed(df) && m <= |df.names|
    ensures forall i :: 0 <= i < |r| ==> r[i] < m
    ensures forall x: nat {:trigger x in r} :: x < m ==> (x in r <==> df.kinds[x] == k)
    ensures forall a, b :: 0 <= a < b < |r| ==> r[a] < r[b]
  {
    if m == 0 then []
    else
      var init := ColumnsOfKind(df, k, m - 1);
      if df.kinds[m - 1] == k then init + [m - 1] else init
  }

  function NumericColumns(df: Frame): (r: seq<nat>)
    requires WellFormed(df)
    ensures forall i :: 0 <= i < |r| ==> r[i] < |df.names|
    ensures forall x: nat {:trigger x in r} :: x < |df.names| ==> (x in r <==> df.kinds[x] == Numeric)
  {
    ColumnsOfKind(df, Numeric, |df.names|)
  }

  function ObjectColumns(df: Frame): (r: seq<nat>)
    requires WellFormed(df)
    ensures forall i :: 0 <= i < |r| ==> r[i] < |df.names|
    ensures forall x: nat {:trigger x in r} :: x < |df.names| ==> (x in r <==> df.kinds[x] == Object)
  {
    ColumnsOfKind(df, Object, |df.names|)
  }

  /** Names of the columns at the given indices. */
  function NamesOf(df: Frame, cols: seq<nat>): (r: seq<string>)
    requires forall i :: 0 <= i < |cols| ==> cols[i] < |df.names|
    ensures |r| == |cols|
    ensures forall i :: 0 <= i < |cols| ==> r[i] == df.names[cols[i]]
  {
    seq(|cols|, i requires 0 <= i < |cols| => df.names[cols[i]])
  }

  /** `df.select_dtypes(include=[np.number]).empty`: no numeric column, or no row. */
  predicate NumericPartEmpty(df: Frame)
    requires WellFormed(df)
  {
    NumericColumns(df) == [] || df.height == 0
  }
}
