/** The AI dashboard route: the suggestions it takes from the language model's reply
    (the JSON array inside it) or builds itself when the reply holds none, the metric
    cards it computes, and the loop that turns suggestions into dashboard items,
    skipping the ones that fail. Drawing a chart, `str` of a non-text JSON value and
    the pandas statistics are parameters. */
module Dashboard {
  import opened Wrappers
  import opened Strings
  import opened JsonData
  import opened Frames
  import Database

  // ------------------------------------------------------------------------------
  // Fallback suggestions

  function CardSuggestion(metricType: string, column: Json, title: string, description: string): Json {
    JObj(map[
      "type" := JStr("metric_card"),
      "metric_type" := JStr(metricType),
      "column" := column,
      "title" := JStr(title),
      "description" := JStr(description)])
  }

  function ChartSuggestion(kind: string, x: Json, y: Json, scheme: string, title: string, description: string): Json {
    JObj(map[
      "type" := JStr(kind),
      "x_column" := x,
      "y_column" := y,
      "color_scheme" := JStr(scheme),
      "title" := JStr(title),
      "description" := JStr(description)])
  }

  function CountCard(): Json {
    CardSuggestion("count", JNull, "Total Records", "Total rows")
  }

  function SumCard(col: string): Json {
    CardSuggestion("sum", JStr(col), "Total " + col, "Sum of " + col)
  }

  function AvgCard(col: string): Json {
    CardSuggestion("avg", JStr(col), "Average " + col, "Mean of " + col)
  }

  function Histogram(col: string): Json {
    ChartSuggestion("histogram", JStr(col), JNull, "viridis", "Distribution of " + col, "Frequency distribution")
  }

  function Scatter(x: string, y: string): Json {
    ChartSuggestion("scatter", JStr(x), JStr(y), "blues", x + " vs " + y, "Relationship")
  }

  function Bar(col: string): Json {
    ChartSuggestion("bar", JStr(col), JNull, "rainbow", "Count by " + col, "Category breakdown")
  }

  function Heatmap(): Json {
    ChartSuggestion("heatmap", JNull, JNull, "plasma", "Correlation Matrix", "Correlations")
  }

  /** Which dict of the fallback list a position holds: the row-count card, the sum
      or average card of a column, or one of the four charts. */
  datatype Planned =
    | CountPlan
    | SumPlan(col: string)
    | AvgPlan(col: string)
    | HistogramPlan(col: string)
    | ScatterPlan(x: string, y: string)
    | BarPlan(col: string)
    | HeatmapPlan

  /** The dict written for a planned suggestion. */
  function Render(p: Planned): Json {
    match p
    case CountPlan => CountCard()
    case SumPlan(col) => SumCard(col)
    case AvgPlan(col) => AvgCard(col)
    case HistogramPlan(col) => Histogram(col)
    case ScatterPlan(x, y) => Scatter(x, y)
    case BarPlan(col) => Bar(col)
    case HeatmapPlan => Heatmap()
  }

  /** The `type` a planned suggestion's dict carries. */
  function KindOf(p: Planned): string {
    match p
    case CountPlan => "metric_card"
    case SumPlan(_) => "metric_card"
    case AvgPlan(_) => "metric_card"
    case HistogramPlan(_) => "histogram"
    case ScatterPlan(_, _) => "scatter"
    case BarPlan(_) => "bar"
    case HeatmapPlan => "heatmap"
  }

  /** The dicts of a list of planned suggestions, in order. */
  function RenderAll(ps: seq<Planned>): (r: seq<Json>)
    ensures |r| == |ps|
    ensures forall i :: 0 <= i < |ps| ==> r[i] == Render(ps[i])
  {
    seq(|ps|, i requires 0 <= i < |ps| => Render(ps[i]))
  }

  lemma RenderAllAppend(ps: seq<Planned>, qs: seq<Planned>)
    ensures RenderAll(ps + qs) == RenderAll(ps) + RenderAll(qs)
  {
    assert forall i :: 0 <= i < |ps| ==> (ps + qs)[i] == ps[i];
    assert forall i :: |ps| <= i < |ps + qs| ==> (ps + qs)[i] == qs[i - |ps|];
  }

  /** The sum and average cards of each column, in column order. */
  function CardsOf(cols: seq<string>): seq<Planned> {
    if cols == [] then []
    else CardsOf(cols[..|cols| - 1]) + [SumPlan(cols[|cols| - 1]), AvgPlan(cols[|cols| - 1])]
  }

  /** `numeric_cols[:2]` */
  function Leading(numeric: seq<string>): (r: seq<string>)
    ensures |r| == (if |numeric| < 2 then |numeric| else 2)
    ensures forall k :: 0 <= k < |r| ==> r[k] == numeric[k]
  {
    numeric[..if |numeric| < 2 then |numeric| else 2]
  }

  /** The metric cards of the fallback: the row count, then the sum and the average of
      each of the first two numeric columns. */
  function CardPart(numeric: seq<string>): seq<Planned> {
    if numeric != [] then [CountPlan] + CardsOf(Leading(numeric)) else []
  }

  /** The charts of the fallback, in order. */
  function ChartPart(numeric: seq<string>, categorical: seq<string>): seq<Planned> {
    (if numeric != [] then [HistogramPlan(numeric[0])] else [])
    + (if |numeric| >= 2 then [ScatterPlan(numeric[0], numeric[1])] else [])
    + (if categorical != [] then [BarPlan(categorical[0])] else [])
    + (if |numeric| >= 3 then [HeatmapPlan] else [])
  }

  /** `generate_fallback_suggestions`, as a value: the dicts of the cards, then of the
      charts. */
  function Fallback(numeric: seq<string>, categorical: seq<string>): seq<Json> {
    RenderAll(CardPart(numeric) + ChartPart(numeric, categorical))
  }

  /** `generate_fallback_suggestions`: the metric cards, then the charts. */
  method FallbackSuggestions(numeric: seq<string>, categorical: seq<string>) returns (r: seq<Json>)
    ensures r == Fallback(numeric, categorical)
  {
    var cards := MetricCards(numeric);
    var charts := ChartSuggestions(numeric, categorical);
    r := cards + charts;
    RenderAllAppend(CardPart(numeric), ChartPart(numeric, categorical));
  }

  /** The chart part of `generate_fallback_suggestions`, one append at a time: the
      histogram of the first numeric column, the scatter plot of the first two, the
      bar chart of the first categorical column and the correlation heatmap, each
      only when there are enough columns of its kind. */
  method ChartSuggestions(numeric: seq<string>, categorical: seq<string>) returns (r: seq<Json>)
    ensures r == RenderAll(ChartPart(numeric, categorical))
  {
    r := [];
    if numeric != [] {
      r := r + [Histogram(numeric[0])];
    }
    ghost var hist := r;
    if |numeric| >= 2 {
      r := r + [Scatter(numeric[0], numeric[1])];
    }
    assert r == hist + (if |numeric| >= 2 then [Scatter(numeric[0], numeric[1])] else []);
    ghost var scatter := r;
    if categorical != [] {
      r := r + [Bar(categorical[0])];
    }
    assert r == scatter + (if categorical != [] then [Bar(categorical[0])] else []);
    ghost var bar := r;
    if |numeric| >= 3 {
      r := r + [Heatmap()];
    }
    assert r == bar + (if |numeric| >= 3 then [Heatmap()] else []);
    ChartPartRendered(numeric, categorical);
  }

  /** The chart plan renders piece by piece. */
  lemma ChartPartRendered(numeric: seq<string>, categorical: seq<string>)
    ensures RenderAll(ChartPart(numeric, categorical)) ==
      (if numeric != [] then [Histogram(numeric[0])] else [])
      + (if |numeric| >= 2 then [Scatter(numeric[0], numeric[1])] else [])
      + (if categorical != [] then [Bar(categorical[0])] else [])
      + (if |numeric| >= 3 then [Heatmap()] else [])
  {
    var hist := if numeric != [] then [HistogramPlan(numeric[0])] else [];
    var scatter := if |numeric| >= 2 then [ScatterPlan(numeric[0], numeric[1])] else [];
    var bar := if categorical != [] then [BarPlan(categorical[0])] else [];
    var heat := if |numeric| >= 3 then [HeatmapPlan] else [];
    assert RenderAll(hist) == (if numeric != [] then [Histogram(numeric[0])] else []) by {
      if numeric != [] {
        RenderOne(HistogramPlan(numeric[0]));
      }
    }
    assert RenderAll(scatter) == (if |numeric| >= 2 then [Scatter(numeric[0], numeric[1])] else []) by {
      if |numeric| >= 2 {
        RenderOne(ScatterPlan(numeric[0], numeric[1]));
      }
    }
    assert RenderAll(bar) == (if categorical != [] then [Bar(categorical[0])] else []) by {
      if categorical != [] {
        RenderOne(BarPlan(categorical[0]));
      }
    }
    assert RenderAll(heat) == (if |numeric| >= 3 then [Heatmap()] else []) by {
      if |numeric| >= 3 {
        RenderOne(HeatmapPlan);
      }
    }
    RenderAllAppend(hist, scatter);
    RenderAllAppend(hist + scatter, bar);
    RenderAllAppend(hist + scatter + bar, heat);
  }

  /** A single planned suggestion renders to its dict. */
  lemma RenderOne(p: Planned)
    ensures RenderAll([p]) == [Render(p)]
  {
  }

  /** The metric-card part of `generate_fallback_suggestions`: the count card, then a
      sum and an average card for each of the first two numeric columns. */
  method MetricCards(numeric: seq<string>) returns (r: seq<Json>)
    ensures r == RenderAll(CardPart(numeric))
  {
    r := [];
    if numeric != [] {
      r := r + [CountCard()];
      var shown := Leading(numeric);
      var i := 0;
      while i < |shown|
        invariant 0 <= i <= |shown|
        invariant r == RenderAll([CountPlan] + CardsOf(shown[..i]))
      {
        assert shown[..i + 1][..i] == shown[..i];
        RenderAllAppend([CountPlan] + CardsOf(shown[..i]), [SumPlan(shown[i]), AvgPlan(shown[i])]);
        r := r + [SumCard(shown[i]), AvgCard(shown[i])];
        i := i + 1;
      }
      assert shown[..|shown|] == shown;
    }
  }

  /** `suggestion.get('type')` of a suggestion that is a dict; `None` otherwise. */
  function TypeOf(j: Json): Json {
    if j.JObj? && "type" in j.fields then j.fields["type"] else JNull
  }

  /** Some suggestion of the list has the given type. */
  predicate HasType(ss: seq<Json>, kind: string) {
    exists i :: 0 <= i < |ss| && TypeOf(ss[i]) == JStr(kind)
  }

  /** Every dict carries the type of its plan. */
  lemma RenderType(p: Planned)
    ensures TypeOf(Render(p)) == JStr(KindOf(p))
  {
  }

  /** Some planned suggestion has the given type. */
  predicate PlanHas(ps: seq<Planned>, kind: string) {
    exists i :: 0 <= i < |ps| && KindOf(ps[i]) == kind
  }

  lemma RenderAllType(ps: seq<Planned>, kind: string)
    ensures HasType(RenderAll(ps), kind) <==> PlanHas(ps, kind)
  {
    var r := RenderAll(ps);
    if HasType(r, kind) {
      var i :| 0 <= i < |r| && TypeOf(r[i]) == JStr(kind);
      RenderType(ps[i]);
    }
    if PlanHas(ps, kind) {
      var i :| 0 <= i < |ps| && KindOf(ps[i]) == kind;
      RenderType(ps[i]);
      assert TypeOf(r[i]) == JStr(kind);
    }
  }

  /** Two cards per column: the sum card, then the average card. */
  lemma {:induction false} CardsOfLayout(cols: seq<string>)
    ensures |CardsOf(cols)| == 2 * |cols|
    ensures forall k :: 0 <= k < |cols| ==> CardsOf(cols)[2 * k] == SumPlan(cols[k]) && CardsOf(cols)[2 * k + 1] == AvgPlan(cols[k])
  {
    if cols != [] {
      var init, last := cols[..|cols| - 1], cols[|cols| - 1];
      CardsOfLayout(init);
      var c, r := CardsOf(init), CardsOf(cols);
      assert r == c + [SumPlan(last), AvgPlan(last)];
      forall k | 0 <= k < |cols| ensures r[2 * k] == SumPlan(cols[k]) && r[2 * k + 1] == AvgPlan(cols[k]) {
        if k < |init| {
          assert cols[k] == init[k];
          assert r[2 * k] == c[2 * k] && r[2 * k + 1] == c[2 * k + 1];
        }
      }
    }
  }

  /** The fallback list opens, when there are numeric columns, with the count card,
      the sum and average cards of the first two numeric columns and the histogram of
      the first one. */
  lemma FallbackOpening(numeric: seq<string>, categorical: seq<string>)
    requires numeric != []
    ensures var r, m := Fallback(numeric, categorical), |Leading(numeric)|;
      && |r| >= 2 * m + 2
      && r[0] == CountCard()
      && (forall k :: 0 <= k < m ==> r[2 * k + 1] == SumCard(numeric[k]) && r[2 * k + 2] == AvgCard(numeric[k]))
      && r[2 * m + 1] == Histogram(numeric[0])
  {
    var lead := Leading(numeric);
    CardsOfLayout(lead);
    var plan := CardPart(numeric) + ChartPart(numeric, categorical);
    var m := |lead|;
    assert |CardPart(numeric)| == 2 * m + 1;
    assert plan[0] == CountPlan;
    assert plan[2 * m + 1] == HistogramPlan(numeric[0]);
    forall k | 0 <= k < m ensures plan[2 * k + 1] == SumPlan(numeric[k]) && plan[2 * k + 2] == AvgPlan(numeric[k]) {
      assert plan[2 * k + 1] == CardsOf(lead)[2 * k];
      assert plan[2 * k + 2] == CardsOf(lead)[2 * k + 1];
    }
  }

  /** Without numeric columns the fallback is at most the bar chart of the first
      categorical column. */
  lemma FallbackWithoutNumbers(numeric: seq<string>, categorical: seq<string>)
    requires numeric == []
    ensures Fallback(numeric, categorical) == (if categorical != [] then [Bar(categorical[0])] else [])
  {
    var plan := CardPart(numeric) + ChartPart(numeric, categorical);
    assert plan == (if categorical != [] then [BarPlan(categorical[0])] else []);
  }

  /** Which charts the fallback proposes: a histogram when there is a numeric column,
      a scatter plot when there are two, a bar chart when there is a categorical
      column, a correlation heatmap when there are three numeric columns; metric
      cards exactly when there is a numeric column. */
  lemma FallbackCharts(numeric: seq<string>, categorical: seq<string>)
    ensures HasType(Fallback(numeric, categorical), "histogram") <==> |numeric| >= 1
    ensures HasType(Fallback(numeric, categorical), "scatter") <==> |numeric| >= 2
    ensures HasType(Fallback(numeric, categorical), "bar") <==> |categorical| >= 1
    ensures HasType(Fallback(numeric, categorical), "heatmap") <==> |numeric| >= 3
    ensures HasType(Fallback(numeric, categorical), "metric_card") <==> |numeric| >= 1
  {
    FallbackType(numeric, categorical, "histogram");
    FallbackType(numeric, categorical, "scatter");
    FallbackType(numeric, categorical, "bar");
    FallbackType(numeric, categorical, "heatmap");
    FallbackType(numeric, categorical, "metric_card");
  }

  /** The fallback list has a suggestion of a type exactly when one of its parts does. */
  lemma FallbackType(numeric: seq<string>, categorical: seq<string>, kind: string)
    ensures HasType(Fallback(numeric, categorical), kind) <==>
      || (numeric != [] && kind == "metric_card")
      || (numeric != [] && kind == "histogram")
      || (|numeric| >= 2 && kind == "scatter")
      || (categorical != [] && kind == "bar")
      || (|numeric| >= 3 && kind == "heatmap")
  {
    RenderAllType(CardPart(numeric) + ChartPart(numeric, categorical), kind);
    PlanHasAppend(CardPart(numeric), ChartPart(numeric, categorical), kind);
    CardsType(numeric, kind);
    ChartsType(numeric, categorical, kind);
  }

  lemma ChartsType(numeric: seq<string>, categorical: seq<string>, kind: string)
    ensures PlanHas(ChartPart(numeric, categorical), kind) <==>
      || (numeric != [] && kind == "histogram")
      || (|numeric| >= 2 && kind == "scatter")
      || (categorical != [] && kind == "bar")
      || (|numeric| >= 3 && kind == "heatmap")
  {
    var hist := if numeric != [] then [HistogramPlan(numeric[0])] else [];
    var scatter := if |numeric| >= 2 then [ScatterPlan(numeric[0], numeric[1])] else [];
    var bar := if categorical != [] then [BarPlan(categorical[0])] else [];
    var heat := if |numeric| >= 3 then [HeatmapPlan] else [];
    PlanHasAppend(hist, scatter, kind);
    PlanHasAppend(hist + scatter, bar, kind);
    PlanHasAppend(hist + scatter + bar, heat, kind);
    OptionalType(numeric != [], if numeric != [] then HistogramPlan(numeric[0]) else HeatmapPlan, kind);
    OptionalType(|numeric| >= 2, if |numeric| >= 2 then ScatterPlan(numeric[0], numeric[1]) else HeatmapPlan, kind);
    OptionalType(categorical != [], if categorical != [] then BarPlan(categorical[0]) else HeatmapPlan, kind);
    OptionalType(|numeric| >= 3, HeatmapPlan, kind);
  }

  /** A part of at most one suggestion. */
  lemma OptionalType(present: bool, p: Planned, kind: string)
    ensures PlanHas(if present then [p] else [], kind) <==> present && kind == KindOf(p)
  {
    if present {
      assert ([p])[0] == p;
    }
  }

  lemma CardsType(numeric: seq<string>, kind: string)
    ensures PlanHas(CardPart(numeric), kind) <==> numeric != [] && kind == "metric_card"
  {
    if numeric != [] {
      var cards := CardsOf(Leading(numeric));
      CardsColumns(Leading(numeric));
      PlanHasAppend([CountPlan], cards, kind);
      OptionalType(true, CountPlan, kind);
      if PlanHas(cards, kind) {
        var i :| 0 <= i < |cards| && KindOf(cards[i]) == kind;
        assert cards[i].SumPlan? || cards[i].AvgPlan?;
      }
    }
  }

  lemma PlanHasAppend(a: seq<Planned>, b: seq<Planned>, kind: string)
    ensures PlanHas(a + b, kind) <==> PlanHas(a, kind) || PlanHas(b, kind)
  {
    if PlanHas(a + b, kind) {
      var i :| 0 <= i < |a + b| && KindOf((a + b)[i]) == kind;
      if i >= |a| {
        assert KindOf(b[i - |a|]) == kind;
      }
    }
    if PlanHas(b, kind) {
      var i :| 0 <= i < |b| && KindOf(b[i]) == kind;
      assert (a + b)[|a| + i] == b[i];
    }
    if PlanHas(a, kind) {
      var i :| 0 <= i < |a| && KindOf(a[i]) == kind;
      assert (a + b)[i] == a[i];
    }
  }

  // ------------------------------------------------------------------------------
  // Metric cards

  /** `str(v)` of a JSON value that is neither text nor null (a number, a boolean, a
      list or a dict). */
  type Show = Json -> string

  /** `float(df[column].<statistic>())` for the statistic named "sum", "mean", "min",
      "max" or "median" and the index of an existing column; `None` when pandas or
      `float` raises (text in the column, say). */
  type Statistic = (Frame, nat, string) -> Option<real>

  /** A computed metric: `int` for the counts and `len(df)`, `float` for the
      statistics. */
  datatype Value = Whole(n: int) | Fraction(x: real)

  function Amount(v: Value): real {
    match v
    case Whole(n) => n as real
    case Fraction(x) => x
  }

  /** The text a card shows: a magnitude (written with one decimal for an `int` above
      a thousand, two for a `float`; the rounding is not modelled) and a suffix, or
      'N/A'. */
  datatype Shown = Scaled(magnitude: real, suffix: string, fraction: bool) | NotAvailable

  function Factor(suffix: string): real {
    if suffix == "M" then 1000000.0 else if suffix == "K" then 1000.0 else 1.0
  }

  /** The value formatting of `generate_metric_card`. */
  function Format(v: Value): (s: Shown)
    ensures s.Scaled? && s.fraction == v.Fraction?
    ensures s.magnitude * Factor(s.suffix) == Amount(v)
    ensures s.suffix == "M" <==> Amount(v) > 1000000.0
    ensures s.suffix == "K" <==> 1000.0 < Amount(v) <= 1000000.0
    ensures s.suffix == "" <==> Amount(v) <= 1000.0
    ensures s.suffix != "" ==> 1.0 < s.magnitude
    ensures s.suffix == "K" ==> s.magnitude <= 1000.0
  {
    var x := Amount(v);
    if x > 1000000.0 then Scaled(x / 1000000.0, "M", v.Fraction?)
    else if x > 1000.0 then Scaled(x / 1000.0, "K", v.Fraction?)
    else Scaled(x, "", v.Fraction?)
  }

  datatype MetricCard = MetricCard(metricType: string, column: string, value: Shown, title: string, description: string)

  /** The position of a column name. */
  function ColumnIndex(names: seq<string>, name: string): (j: nat)
    requires name in names
    ensures j < |names| && names[j] == name
  {
    if names[0] == name then 0 else 1 + ColumnIndex(names[1..], name)
  }

  /** The pandas statistic a metric type asks for: 'avg' and 'mean' both mean the
      mean; `None` for a metric type that is not a statistic. */
  function StatisticName(metricType: Json): (r: Option<string>)
    ensures r.Some? ==> r.value in {"sum", "mean", "min", "max", "median"}
  {
    if metricType == JStr("sum") then Some("sum")
    else if metricType == JStr("avg") || metricType == JStr("mean") then Some("mean")
    else if metricType == JStr("min") then Some("min")
    else if metricType == JStr("max") then Some("max")
    else if metricType == JStr("median") then Some("median")
    else None
  }

  /** The value `generate_metric_card` computes; `None` where its `try` block raises. */
  function MetricValue(df: Frame, metricType: Json, column: Json, stat: Statistic): (r: Option<Value>)
    requires WellFormed(df)
    ensures metricType == JStr("count") && !Truthy(column) ==> r == Some(Whole(df.height))
    ensures metricType == JStr("count") && Truthy(column) ==>
      (r.Some? <==> column.JStr? && column.s in df.names)
    ensures metricType == JStr("count") && r.Some? ==> r.value.Whole? && 0 <= r.value.n <= df.height
    ensures metricType != JStr("count") && StatisticName(metricType).None? ==> r == Some(Whole(df.height))
    ensures StatisticName(metricType).Some? && r.Some? ==>
      column.JStr? && column.s in df.names
      && stat(df, ColumnIndex(df.names, column.s), StatisticName(metricType).value).Some?
      && r == Some(Fraction(stat(df, ColumnIndex(df.names, column.s), StatisticName(metricType).value).value))
  {
    if metricType == JStr("count") then
      if !Truthy(column) then Some(Whole(df.height))
      else if column.JStr? && column.s in df.names then
        Some(Whole(|NonNull(Column(df, ColumnIndex(df.names, column.s)))|))
      else None
    else
      match StatisticName(metricType)
      case None => Some(Whole(df.height))
      case Some(name) =>
        if column.JStr? && column.s in df.names then
          match stat(df, ColumnIndex(df.names, column.s), name)
          case Some(x) => Some(Fraction(x))
          case None => None
        else None
  }

  /** `f'{column}'` */
  function ColumnText(column: Json, show: Show): string {
    match column
    case JStr(s) => s
    case JNull => "None"
    case _ => show(column)
  }

  function FieldOr(o: Object, key: string, otherwise: Json): Json {
    if key in o then o[key] else otherwise
  }

  /** The card of the `except` branch: 'N/A', or `None` when building it raises in turn
      (a metric type, column or title that is not text). */
  function FailedCard(o: Object): (r: Option<MetricCard>)
    ensures r.Some? ==> r.value.value == NotAvailable && r.value.description == "Could not calculate"
  {
    var metricType := FieldOr(o, "metric_type", JStr("count"));
    var column := FieldOr(o, "column", JNull);
    var named := if Truthy(column) then column else JStr("unknown");
    var title := FieldOr(o, "title", JStr("Metric"));
    if metricType.JStr? && named.JStr? && title.JStr? then
      Some(MetricCard(metricType.s, named.s, NotAvailable, title.s, "Could not calculate"))
    else None
  }

  /** `generate_metric_card`: the computed card; the 'N/A' card when computing it
      raises; `None` when that one raises too. */
  function MetricCardOf(df: Frame, o: Object, stat: Statistic, show: Show): Option<MetricCard>
    requires WellFormed(df)
  {
    var metricType := FieldOr(o, "metric_type", JStr("count"));
    var column := FieldOr(o, "column", JNull);
    var computed := MetricValue(df, metricType, column, stat);
    var named := if Truthy(column) then column else JStr("dataset");
    var description := FieldOr(o, "description", JStr(""));
    if computed.Some? && metricType.JStr? then
      var title := FieldOr(o, "title", JStr(TitleCase(metricType.s) + " of " + ColumnText(column, show)));
      if named.JStr? && title.JStr? && description.JStr? then
        Some(MetricCard(metricType.s, named.s, Format(computed.value), title.s, description.s))
      else FailedCard(o)
    else FailedCard(o)
  }

  /** What a metric card shows: the formatted value when it could be computed, 'N/A'
      otherwise; the column, or 'dataset' for a card about the whole table; the title
      and metric type of the suggestion. */
  lemma MetricCardContents(df: Frame, o: Object, stat: Statistic, show: Show)
    requires WellFormed(df)
    ensures var card := MetricCardOf(df, o, stat, show);
      var metricType := FieldOr(o, "metric_type", JStr("count"));
      var column := FieldOr(o, "column", JNull);
      var computed := MetricValue(df, metricType, column, stat);
      && (card.Some? ==> metricType == JStr(card.value.metricType))
      && (card.Some? && "title" in o ==> o["title"] == JStr(card.value.title))
      && (card.Some? && card.value.value.Scaled? ==>
            computed.Some? && card.value.value == Format(computed.value)
            && card.value.column == (if Truthy(column) then column.s else "dataset"))
      && (card.Some? && card.value.value.NotAvailable? ==>
            card.value.column == (if Truthy(column) then column.s else "unknown"))
      && (computed.None? ==> card == FailedCard(o))
  {
  }

  /** A card whose suggestion has text for its metric type, title and description and
      names no column or an existing one is always produced, with the value
      computed unless the statistic itself fails. */
  lemma MetricCardShown(df: Frame, o: Object, stat: Statistic, show: Show)
    requires WellFormed(df)
    requires "metric_type" in o && o["metric_type"].JStr?
    requires "title" in o && o["title"].JStr?
    requires "description" in o && o["description"].JStr?
    requires "column" in o && (o["column"].JNull? || (o["column"].JStr? && o["column"].s in df.names))
    ensures MetricCardOf(df, o, stat, show).Some?
    ensures MetricValue(df, o["metric_type"], o["column"], stat).Some? ==>
      MetricCardOf(df, o, stat, show).value.value == Format(MetricValue(df, o["metric_type"], o["column"], stat).value)
  {
  }

  // ------------------------------------------------------------------------------
  // Colour palettes

  /** The plotly colour sequences `generate_plotly_chart` picks from. */
  datatype Palette = Viridis | Blues | Reds | Greens | Plasma | Bold | Turbo | Sunset

  /** The scheme name that selects a palette. */
  function SchemeName(p: Palette): string {
    match p
    case Viridis => "viridis"
    case Blues => "blues"
    case Reds => "reds"
    case Greens => "greens"
    case Plasma => "plasma"
    case Bold => "rainbow"
    case Turbo => "turbo"
    case Sunset => "sunset"
  }

  /** `color_palettes.get(color_scheme.lower(), Viridis)` */
  function PaletteFor(scheme: string): Palette {
    var key := Lower(scheme);
    if key == "blues" then Blues
    else if key == "reds" then Reds
    else if key == "greens" then Greens
    else if key == "plasma" then Plasma
    else if key == "rainbow" then Bold
    else if key == "turbo" then Turbo
    else if key == "sunset" then Sunset
    else Viridis
  }

  /** A scheme selects a palette exactly when its lower-cased name is that palette's
      name; every other scheme gets Viridis. */
  lemma PaletteLookup(scheme: string, p: Palette)
    ensures p != Viridis ==> (PaletteFor(scheme) == p <==> Lower(scheme) == SchemeName(p))
    ensures PaletteFor(scheme) == Viridis ==> Lower(scheme) !in {"blues", "reds", "greens", "plasma", "rainbow", "turbo", "sunset"}
  {
  }

  /** The lookup ignores case. */
  lemma PaletteIgnoresCase(scheme: string)
    ensures PaletteFor(Lower(scheme)) == PaletteFor(scheme)
  {
    LowerIdempotent(scheme);
  }

  // ------------------------------------------------------------------------------
  // Dashboard items

  /** `generate_plotly_chart(df, suggestion, categorical_cols).to_json()` once the
      suggestion's type, title and colour scheme were read; inside, any failure
      becomes an error figure, so this always gives a text. */
  type Plot = (Frame, Object) -> string

  /** `ChartData` */
  datatype Item = Item(
    kind: string,
    title: string,
    plotlyJson: Option<string>,
    description: string,
    colorScheme: Option<string>,
    card: Option<MetricCard>)

  /** One pass of the item loop: `Err(500)` for a suggestion that is not a dict (the
      `except` handler calls `.get` on it again), `Ok(None)` for a skipped suggestion,
      the item otherwise. */
  function ItemOf(df: Frame, s: Json, stat: Statistic, show: Show, plot: Plot): (r: Result<Option<Item>>)
    requires WellFormed(df)
    ensures r.Err? <==> !s.JObj?
    ensures r.Err? ==> r.status == 500
    ensures r.Ok? && r.value.Some? ==>
      && "title" in s.fields && s.fields["title"] == JStr(r.value.value.title)
      && (r.value.value.card.Some? <==> TypeOf(s) == JStr("metric_card"))
      && (r.value.value.card.None? ==> TypeOf(s) == JStr(r.value.value.kind) && r.value.value.plotlyJson.Some?)
  {
    if !s.JObj? then Err(500)
    else
      var o := s.fields;
      var description := FieldOr(o, "description", JStr(""));
      if TypeOf(s) == JStr("metric_card") then
        match MetricCardOf(df, o, stat, show)
        case None => Ok(None)
        case Some(card) =>
          if "title" in o && o["title"].JStr? && description.JStr? then
            Ok(Some(Item("metric_card", o["title"].s, None, description.s, None, Some(card))))
          else Ok(None)
      else
        var scheme := FieldOr(o, "color_scheme", JStr("viridis"));
        if "type" in o && o["type"].JStr? && "title" in o && o["title"].JStr? && scheme.JStr? && description.JStr? then
          Ok(Some(Item(o["type"].s, o["title"].s, Some(plot(df, o)), description.s, Some(scheme.s), None)))
        else Ok(None)
  }

  /** The item loop: the items of the suggestions that do not fail, in order;
      `Err(500)` as soon as a suggestion is not a dict. */
  function Items(df: Frame, ss: seq<Json>, stat: Statistic, show: Show, plot: Plot): Result<seq<Item>>
    requires WellFormed(df)
  {
    if ss == [] then Ok([])
    else
      match Items(df, ss[..|ss| - 1], stat, show, plot)
      case Err(code) => Err(code)
      case Ok(items) =>
        match ItemOf(df, ss[|ss| - 1], stat, show, plot)
        case Err(code) => Err(code)
        case Ok(item) => Ok(items + AsSeq(item))
  }

  /** The `for suggestion in suggestions` loop of `generate_dashboard`. */
  method BuildItems(df: Frame, ss: seq<Json>, stat: Statistic, show: Show, plot: Plot) returns (r: Result<seq<Item>>)
    requires WellFormed(df)
    ensures r == Items(df, ss, stat, show, plot)
  {
    var items := [];
    var i := 0;
    while i < |ss|
      invariant 0 <= i <= |ss|
      invariant Items(df, ss[..i], stat, show, plot) == Ok(items)
    {
      assert ss[..i + 1][..i] == ss[..i];
      var item := ItemOf(df, ss[i], stat, show, plot);
      if item.Err? {
        ItemsErrExtends(df, ss, i + 1, stat, show, plot);
        return Err(item.status);
      }
      items := items + AsSeq(item.value);
      i := i + 1;
    }
    assert ss[..|ss|] == ss;
    return Ok(items);
  }

  /** Once the loop has failed on a prefix, it fails on the whole list. */
  lemma {:induction false} ItemsErrExtends(df: Frame, ss: seq<Json>, i: nat, stat: Statistic, show: Show, plot: Plot)
    requires WellFormed(df) && i <= |ss|
    requires Items(df, ss[..i], stat, show, plot).Err?
    ensures Items(df, ss, stat, show, plot) == Err(500)
    decreases |ss| - i
  {
    ItemsErrIs500(df, ss[..i], stat, show, plot);
    if i < |ss| {
      assert ss[..i + 1][..i] == ss[..i];
      ItemsErrExtends(df, ss, i + 1, stat, show, plot);
    } else {
      assert ss[..i] == ss;
    }
  }

  lemma {:induction false} ItemsErrIs500(df: Frame, ss: seq<Json>, stat: Statistic, show: Show, plot: Plot)
    requires WellFormed(df)
    ensures Items(df, ss, stat, show, plot).Err? ==> Items(df, ss, stat, show, plot).status == 500
  {
    if ss != [] {
      ItemsErrIs500(df, ss[..|ss| - 1], stat, show, plot);
    }
  }

  /** The loop fails exactly when some suggestion is not a dict; otherwise it gives at
      most one item per suggestion. */
  lemma {:induction false} ItemsOutcome(df: Frame, ss: seq<Json>, stat: Statistic, show: Show, plot: Plot)
    requires WellFormed(df)
    ensures Items(df, ss, stat, show, plot).Err? <==> exists i :: 0 <= i < |ss| && !ss[i].JObj?
    ensures Items(df, ss, stat, show, plot).Err? ==> Items(df, ss, stat, show, plot).status == 500
    ensures Items(df, ss, stat, show, plot).Ok? ==> |Items(df, ss, stat, show, plot).value| <= |ss|
  {
    ItemsErrIs500(df, ss, stat, show, plot);
    if ss != [] {
      var init := ss[..|ss| - 1];
      ItemsOutcome(df, init, stat, show, plot);
      if exists i :: 0 <= i < |init| && !init[i].JObj? {
        var i :| 0 <= i < |init| && !init[i].JObj?;
        assert ss[i] == init[i];
      }
      if exists i :: 0 <= i < |ss| && !ss[i].JObj? {
        var i :| 0 <= i < |ss| && !ss[i].JObj?;
        if i < |init| {
          assert init[i] == ss[i];
        }
      }
    }
  }

  /** Suggestions are handled one by one and independently: the items of two lists
      one after the other are the items of the first followed by those of the
      second. */
  lemma {:induction false} ItemsAppend(df: Frame, a: seq<Json>, b: seq<Json>, stat: Statistic, show: Show, plot: Plot)
    requires WellFormed(df)
    requires Items(df, a, stat, show, plot).Ok? && Items(df, b, stat, show, plot).Ok?
    ensures Items(df, a + b, stat, show, plot) == Ok(Items(df, a, stat, show, plot).value + Items(df, b, stat, show, plot).value)
    decreases |b|
  {
    if b == [] {
      assert a + b == a;
      assert Items(df, a, stat, show, plot).value + [] == Items(df, a, stat, show, plot).value;
    } else {
      var b' := b[..|b| - 1];
      assert (a + b)[..|a + b| - 1] == a + b';
      assert (a + b)[|a + b| - 1] == b[|b| - 1];
      assert Items(df, b', stat, show, plot).Ok?;
      ItemsAppend(df, a, b', stat, show, plot);
      var last := ItemOf(df, b[|b| - 1], stat, show, plot);
      assert last.Ok?;
      assert Items(df, b, stat, show, plot).value == Items(df, b', stat, show, plot).value + AsSeq(last.value);
      assert Items(df, a + b, stat, show, plot) == Ok(Items(df, a + b', stat, show, plot).value + AsSeq(last.value));
      var xs, ys := Items(df, a, stat, show, plot).value, Items(df, b', stat, show, plot).value;
      assert (xs + ys) + AsSeq(last.value) == xs + (ys + AsSeq(last.value));
    }
  }

  /** A suggestion with text for its type, title and description that the loop turns
      into an item: a metric card with text for its metric type and a column that is
      null or an existing column name, or a chart with text for its colour scheme. */
  predicate WellFormedSuggestion(df: Frame, s: Json) {
    && s.JObj?
    && "type" in s.fields && s.fields["type"].JStr?
    && "title" in s.fields && s.fields["title"].JStr?
    && "description" in s.fields && s.fields["description"].JStr?
    && (s.fields["type"] == JStr("metric_card") ==>
          && "metric_type" in s.fields && s.fields["metric_type"].JStr?
          && "column" in s.fields
          && (s.fields["column"].JNull? || (s.fields["column"].JStr? && s.fields["column"].s in df.names)))
    && (s.fields["type"] != JStr("metric_card") ==>
          "color_scheme" in s.fields && s.fields["color_scheme"].JStr?)
  }

  lemma WellFormedSuggestionShown(df: Frame, s: Json, stat: Statistic, show: Show, plot: Plot)
    requires WellFormed(df) && WellFormedSuggestion(df, s)
    ensures ItemOf(df, s, stat, show, plot).Ok? && ItemOf(df, s, stat, show, plot).value.Some?
  {
    if TypeOf(s) == JStr("metric_card") {
      MetricCardShown(df, s.fields, stat, show);
    }
  }

  /** Well-formed suggestions all become items, one each. */
  lemma {:induction false} AllShown(df: Frame, ss: seq<Json>, stat: Statistic, show: Show, plot: Plot)
    requires WellFormed(df)
    requires forall i :: 0 <= i < |ss| ==> WellFormedSuggestion(df, ss[i])
    ensures Items(df, ss, stat, show, plot).Ok? && |Items(df, ss, stat, show, plot).value| == |ss|
  {
    if ss != [] {
      AllShown(df, ss[..|ss| - 1], stat, show, plot);
      WellFormedSuggestionShown(df, ss[|ss| - 1], stat, show, plot);
    }
  }

  /** A dict of the plan is well formed when the card's column is one of the table's. */
  lemma RenderWellFormed(df: Frame, p: Planned)
    requires p.SumPlan? || p.AvgPlan? ==> p.col in df.names
    ensures WellFormedSuggestion(df, Render(p))
  {
    match p
    case CountPlan =>
    case SumPlan(_) =>
    case AvgPlan(_) =>
    case HistogramPlan(col) => ChartWellFormed(df, "histogram", JStr(col), JNull, "viridis", "Distribution of " + col, "Frequency distribution");
    case ScatterPlan(x, y) => ChartWellFormed(df, "scatter", JStr(x), JStr(y), "blues", x + " vs " + y, "Relationship");
    case BarPlan(col) => ChartWellFormed(df, "bar", JStr(col), JNull, "rainbow", "Count by " + col, "Category breakdown");
    case HeatmapPlan => ChartWellFormed(df, "heatmap", JNull, JNull, "plasma", "Correlation Matrix", "Correlations");
  }

  /** A chart suggestion of a type other than a metric card is well formed. */
  lemma ChartWellFormed(df: Frame, kind: string, x: Json, y: Json, scheme: string, title: string, description: string)
    requires kind != "metric_card"
    ensures WellFormedSuggestion(df, ChartSuggestion(kind, x, y, scheme, title, description))
  {
  }

  /** The cards of the fallback name columns of the given list. */
  lemma {:induction false} CardsColumns(cols: seq<string>)
    ensures forall i :: 0 <= i < |CardsOf(cols)| ==> (CardsOf(cols)[i].SumPlan? || CardsOf(cols)[i].AvgPlan?) && CardsOf(cols)[i].col in cols
  {
    if cols != [] {
      var init := cols[..|cols| - 1];
      CardsColumns(init);
      var c, r := CardsOf(init), CardsOf(cols);
      assert r == c + [SumPlan(cols[|cols| - 1]), AvgPlan(cols[|cols| - 1])];
      forall i | 0 <= i < |r| ensures (r[i].SumPlan? || r[i].AvgPlan?) && r[i].col in cols {
        if i < |c| {
          assert r[i] == c[i] && r[i].col in init;
        }
      }
    }
  }

  /** Built from names of the table's columns, every fallback suggestion is well
      formed. */
  lemma FallbackWellFormed(df: Frame, numeric: seq<string>, categorical: seq<string>)
    requires forall k :: 0 <= k < |numeric| ==> numeric[k] in df.names
    ensures forall i :: 0 <= i < |Fallback(numeric, categorical)| ==> WellFormedSuggestion(df, Fallback(numeric, categorical)[i])
  {
    var plan := CardPart(numeric) + ChartPart(numeric, categorical);
    var cards := CardPart(numeric);
    if numeric != [] {
      CardsColumns(Leading(numeric));
    }
    forall i | 0 <= i < |plan| ensures WellFormedSuggestion(df, Fallback(numeric, categorical)[i]) {
      if plan[i].SumPlan? || plan[i].AvgPlan? {
        assert i < |cards| && plan[i] == cards[i];
        assert plan[i] == CardsOf(Leading(numeric))[i - 1];
      }
      RenderWellFormed(df, plan[i]);
    }
  }

  /** When the reply holds no array, every fallback suggestion becomes an item. */
  lemma FallbackShown(df: Frame, stat: Statistic, show: Show, plot: Plot)
    requires WellFormed(df)
    ensures var ss := Fallback(NamesOf(df, NumericColumns(df)), NamesOf(df, ObjectColumns(df)));
      Items(df, ss, stat, show, plot).Ok? && |Items(df, ss, stat, show, plot).value| == |ss|
  {
    var numeric := NamesOf(df, NumericColumns(df));
    FallbackWellFormed(df, numeric, NamesOf(df, ObjectColumns(df)));
    AllShown(df, Fallback(numeric, NamesOf(df, ObjectColumns(df))), stat, show, plot);
  }

  // ------------------------------------------------------------------------------
  // The route

  /** `json.loads` applied to a text that begins with '[' and ends with ']': the
      decoded list, or `None` for a `JSONDecodeError`. */
  type ArrayDecoder = string -> Option<seq<Json>>

  /** The part of the model's reply from the first '[' through the last ']'
      (`re.search(r'\[.*\]', text, re.DOTALL)`). */
  function ArraySlice(text: string): Option<string> {
    Enclosed(text, '[', ']')
  }

  /** The suggestions: the decoded array when the reply holds one, the fallback
      suggestions when it holds none, `None` when the array does not decode. */
  function Suggestions(df: Frame, text: string, decode: ArrayDecoder): (r: Option<seq<Json>>)
    requires WellFormed(df)
    ensures ArraySlice(text).None? ==>
      r == Some(Fallback(NamesOf(df, NumericColumns(df)), NamesOf(df, ObjectColumns(df))))
    ensures ArraySlice(text).Some? ==> r == decode(ArraySlice(text).value)
  {
    match ArraySlice(text)
    case Some(slice) => decode(slice)
    case None => Some(Fallback(NamesOf(df, NumericColumns(df)), NamesOf(df, ObjectColumns(df))))
  }

  /** `DashboardResponse`, without its time-stamped id. */
  datatype Response = Response(items: seq<Item>, numColumns: int, analysis: string)

  /** `result.get('response', '')` when it is text; `None` when it is not, as `re.search`
      and `DashboardResponse` then raise. */
  function ReplyText(reply: Object): Option<string> {
    if "response" !in reply then Some("")
    else if reply["response"].JStr? then Some(reply["response"].s)
    else None
  }

  /** `generate_dashboard`, given the two replies of the language model (the
      suggestions and the analysis). */
  function GenerateDashboard(
    db: Database.Db, id: int, numColumns: int, reply: Object, analysis: Object,
    decode: ArrayDecoder, stat: Statistic, show: Show, plot: Plot): (r: Result<Response>)
    requires Database.Valid(db)
  {
    if id !in db.datasets then Err(404)
    else
      var df := db.datasets[id].content;
      match ReplyText(reply)
      case None => Err(500)
      case Some(text) =>
        match Suggestions(df, text, decode)
        case None => Err(500)
        case Some(ss) =>
          match Items(df, ss, stat, show, plot)
          case Err(code) => Err(code)
          case Ok(items) =>
            match ReplyText(analysis)
            case None => Err(500)
            case Some(summary) => Ok(Response(items, numColumns, summary))
  }

  /** An unknown dataset gives 404 and only that; every other failure is a 500; a
      dashboard carries the requested column count and the analysis text. */
  lemma DashboardOutcome(
    db: Database.Db, id: int, numColumns: int, reply: Object, analysis: Object,
    decode: ArrayDecoder, stat: Statistic, show: Show, plot: Plot)
    requires Database.Valid(db)
    ensures var r := GenerateDashboard(db, id, numColumns, reply, analysis, decode, stat, show, plot);
      && (r == Err(404) <==> id !in db.datasets)
      && (r.Err? ==> r.status in {404, 500})
      && (r.Ok? ==> r.value.numColumns == numColumns && ReplyText(analysis) == Some(r.value.analysis))
  {
    if id in db.datasets && ReplyText(reply).Some? {
      var s := Suggestions(db.datasets[id].content, ReplyText(reply).value, decode);
      if s.Some? {
        ItemsErrIs500(db.datasets[id].content, s.value, stat, show, plot);
      }
    }
  }

  /** When the reply holds no array, the dashboard shows every fallback suggestion. */
  lemma DashboardFallback(
    db: Database.Db, id: int, numColumns: int, reply: Object, analysis: Object,
    decode: ArrayDecoder, stat: Statistic, show: Show, plot: Plot)
    requires Database.Valid(db)
    requires id in db.datasets && ReplyText(reply).Some? && ReplyText(analysis).Some?
    requires ArraySlice(ReplyText(reply).value).None?
    ensures var r := GenerateDashboard(db, id, numColumns, reply, analysis, decode, stat, show, plot);
      var df := db.datasets[id].content;
      r.Ok? && |r.value.items| == |Fallback(NamesOf(df, NumericColumns(df)), NamesOf(df, ObjectColumns(df)))|
  {
    var df := db.datasets[id].content;
    var ss := Fallback(NamesOf(df, NumericColumns(df)), NamesOf(df, ObjectColumns(df)));
    FallbackShown(df, stat, show, plot);
    var items := Items(df, ss, stat, show, plot).value;
    assert GenerateDashboard(db, id, numColumns, reply, analysis, decode, stat, show, plot)
      == Ok(Response(items, numColumns, ReplyText(analysis).value));
  }
}
