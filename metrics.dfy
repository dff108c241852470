/**
 * The summary-metric block shown when the loaded table is not empty:
 * tree count, mean diameter, total replacement value, share of High-risk
 * trees and mean carbon storage (with its diameter-based fallback).
 */
module Metrics {
  import opened Wrappers
  import opened Text
  import opened Risk
  import opened Frame
  import opened Columns
  import opened Stats
  import opened Loader

  /** The five figures of the metric cards, before rounding for display. */
  datatype Summary = Summary(
    totalTrees: nat,
    avgDbh: Option<real>,
    totalValue: real,
    highRiskPct: real,
    avgCarbon: Option<real>)

  /** The numeric reading of a column. */
  function Numbers(vals: seq<Value>): (xs: seq<Option<real>>)
    ensures |xs| == |vals|
    ensures forall i :: 0 <= i < |vals| ==> xs[i] == AsNumber(vals[i])
  {
    seq(|vals|, i requires 0 <= i < |vals| => AsNumber(vals[i]))
  }

  /** `len(gdf[gdf["Risk_Level"] == level])` over the Risk_Level column. */
  function CountLabel(vals: seq<Value>, level: Risk): (n: nat)
    ensures n <= |vals|
  {
    if vals == [] then 0 else (if vals[0] == Label(level) then 1 else 0) + CountLabel(vals[1..], level)
  }

  /** The count is the number of cells carrying the label. */
  lemma {:induction false} CountLabelMultiplicity(vals: seq<Value>, level: Risk)
    ensures CountLabel(vals, level) == multiset(vals)[Label(level)]
  {
    if vals != [] {
      CountLabelMultiplicity(vals[1..], level);
      assert vals == [vals[0]] + vals[1..];
      assert multiset(vals) == multiset{vals[0]} + multiset(vals[1..]);
    }
  }

  /** The count reaches the column length exactly when every cell carries the label. */
  lemma {:induction false} CountLabelAll(vals: seq<Value>, level: Risk)
    ensures CountLabel(vals, level) == |vals| <==> forall i :: 0 <= i < |vals| ==> vals[i] == Label(level)
  {
    if vals != [] {
      CountLabelAll(vals[1..], level);
      assert forall i :: 1 <= i < |vals| ==> vals[i] == vals[1..][i - 1];
    }
  }

  /** The count is zero exactly when no cell carries the label. */
  lemma {:induction false} CountLabelNone(vals: seq<Value>, level: Risk)
    ensures CountLabel(vals, level) == 0 <==> forall i :: 0 <= i < |vals| ==> vals[i] != Label(level)
  {
    if vals != [] {
      CountLabelNone(vals[1..], level);
      assert forall i :: 1 <= i < |vals| ==> vals[i] == vals[1..][i - 1];
    }
  }

  /** The percentage `c / n * 100` of a part `c` of a non-empty whole `n`. */
  lemma PercentFacts(c: nat, n: nat)
    requires 0 < n && c <= n
    ensures 0.0 <= c as real / n as real * 100.0 <= 100.0
    ensures c as real / n as real * 100.0 == 100.0 <==> c == n
    ensures c as real / n as real * 100.0 == 0.0 <==> c == 0
  {
    QuotientBounds(c as real, n as real, 0.0, 1.0);
    var q := c as real / n as real;
    assert q * n as real == c as real;
    if q * 100.0 == 100.0 {
      assert q == 1.0;
    }
    if c == n {
      assert q == 1.0;
    }
  }

  /**
   * `len(gdf[gdf["Risk_Level"] == "High"]) / len(gdf) * 100`, only evaluated
   * for a non-empty table: a percentage that is 100 exactly when every tree is
   * High and 0 exactly when none is.
   */
  function HighRiskPercent(t: Table): (p: real)
    requires |t.rows| > 0
    ensures 0.0 <= p <= 100.0
    ensures p == 100.0 <==> forall k :: 0 <= k < |t.rows| ==> Cell(t.rows[k], RiskColumn) == Label(High)
    ensures p == 0.0 <==> forall k :: 0 <= k < |t.rows| ==> Cell(t.rows[k], RiskColumn) != Label(High)
  {
    var risk := Column(t, RiskColumn);
    PercentFacts(CountLabel(risk, High), |t.rows|);
    CountLabelAll(risk, High);
    CountLabelNone(risk, High);
    CountLabel(risk, High) as real / |t.rows| as real * 100.0
  }

  /** The total replacement value: the numeric cells added up, 0 when no cell is numeric. */
  function TotalValue(t: Table, replCol: string): (r: real)
    ensures (forall k :: 0 <= k < |t.rows| ==> !Cell(t.rows[k], replCol).Num?) ==> r == 0.0
  {
    var xs := Numbers(Column(t, replCol));
    CountNonZero(xs);
    if CountPresent(xs) == 0 then
      SumMissingIsZero(xs);
      SumPresent(xs)
    else
      SumPresent(xs)
  }

  /**
   * The carbon figure: the mean of the first column whose lower-cased name
   * contains both "carbon" and "stor", or else five times the mean diameter.
   */
  function AverageCarbon(t: Table, dbhCol: string): (r: Option<real>)
    ensures FirstColumn(t.columns, IsCarbonName).Some? ==>
      (r.Some? <==> exists k :: 0 <= k < |t.rows| && Cell(t.rows[k], FirstColumn(t.columns, IsCarbonName).value).Num?)
    ensures FirstColumn(t.columns, IsCarbonName).None? ==>
      (r.Some? <==> exists k :: 0 <= k < |t.rows| && Cell(t.rows[k], dbhCol).Num?)
  {
    match FirstColumn(t.columns, IsCarbonName)
    case Some(c) => Mean(Numbers(Column(t, c)))
    case None =>
      match Mean(Numbers(Column(t, dbhCol)))
      case Some(m) => Some(m * 5.0)
      case None => None
  }

  /** The metric block: nothing when `gdf.empty`, the five figures otherwise. */
  function Summarize(t: Table, dbhCol: string, replCol: string): (r: Option<Summary>)
    ensures r.Some? <==> |t.rows| > 0
    ensures r.Some? ==> r.value.totalTrees == |t.rows| && 0.0 <= r.value.highRiskPct <= 100.0
  {
    if |t.rows| == 0 then None
    else Some(Summary(
      |t.rows|,
      Mean(Numbers(Column(t, dbhCol))),
      TotalValue(t, replCol),
      HighRiskPercent(t),
      AverageCarbon(t, dbhCol)))
  }

  /** No column name looks like a carbon-storage column. */
  predicate NoCarbonColumn(cols: seq<string>)
  {
    forall j :: 0 <= j < |cols| ==> !IsCarbonName(Lower(cols[j]))
  }

  /** Without a carbon-storage column, the carbon figure is five times the mean diameter. */
  lemma CarbonFallback(t: Table, dbhCol: string)
    requires NoCarbonColumn(t.columns)
    ensures AverageCarbon(t, dbhCol) ==
      (if Mean(Numbers(Column(t, dbhCol))).Some? then Some(Mean(Numbers(Column(t, dbhCol))).value * 5.0) else None)
  {
    FirstColumnSpec(t.columns, IsCarbonName);
  }

  /** The carbon figure of a shown summary is five times its mean diameter, or missing with it. */
  predicate CarbonIsFallback(t: Table, dbhCol: string, replCol: string)
  {
    var s := Summarize(t, dbhCol, replCol);
    var m := Mean(Numbers(Column(t, dbhCol)));
    s.Some? ==> s.value.avgCarbon == (if m.Some? then Some(m.value * 5.0) else None)
  }

  /**
   * A file with no carbon-storage column gets the diameter-based carbon figure:
   * loading adds no column that the carbon search could pick up.
   */
  lemma LoadedCarbonFallback(raw: Table, parse: string -> Option<real>)
    requires NoCarbonColumn(raw.columns)
    ensures var l := Load(raw, parse); CarbonIsFallback(l.table, l.dbhCol, l.replCol)
  {
    LoadedColumnsNotCarbon(raw, parse);
    SummaryCarbonFallback(Load(raw, parse).table, Load(raw, parse).dbhCol, Load(raw, parse).replCol);
  }

  /** A shown summary of a table without a carbon-storage column carries the diameter-based carbon figure. */
  lemma SummaryCarbonFallback(t: Table, dbhCol: string, replCol: string)
    requires NoCarbonColumn(t.columns)
    ensures CarbonIsFallback(t, dbhCol, replCol)
  {
    CarbonFallback(t, dbhCol);
  }

  /** Loading a file with no carbon-storage column yields a table with none either. */
  lemma LoadedColumnsNotCarbon(raw: Table, parse: string -> Option<real>)
    requires NoCarbonColumn(raw.columns)
    ensures NoCarbonColumn(Load(raw, parse).table.columns)
  {
    EnrichColumnOrigin(raw, parse);
    assert Load(raw, parse).table.columns == Enrich(raw, parse).table.columns;
    NoCarbonAmong(Enrich(raw, parse).table.columns, raw.columns);
  }

  /** Columns drawn from carbon-free file columns and the names load_data adds are carbon-free. */
  lemma NoCarbonAmong(cols: seq<string>, fileCols: seq<string>)
    requires NoCarbonColumn(fileCols)
    requires forall x :: x in cols ==> x in fileCols || x == DefaultDiameter || x == DefaultReplacement || x == RiskColumn
    ensures NoCarbonColumn(cols)
  {
    AddedNamesNotCarbon();
    forall j | 0 <= j < |cols|
      ensures !IsCarbonName(Lower(cols[j]))
    {
      if cols[j] in fileCols {
        var i :| 0 <= i < |fileCols| && fileCols[i] == cols[j];
      }
    }
  }

  /** The mean diameter lies between the smallest and largest diameter present. */
  lemma AverageDiameterBounds(t: Table, dbhCol: string, replCol: string, lo: real, hi: real)
    requires forall k :: 0 <= k < |t.rows| && Cell(t.rows[k], dbhCol).Num? ==> lo <= Cell(t.rows[k], dbhCol).x <= hi
    requires |t.rows| > 0 && Mean(Numbers(Column(t, dbhCol))).Some?
    ensures Summarize(t, dbhCol, replCol).Some? && Summarize(t, dbhCol, replCol).value.avgDbh.Some?
    ensures lo <= Summarize(t, dbhCol, replCol).value.avgDbh.value <= hi
  {
    MeanBounds(Numbers(Column(t, dbhCol)), lo, hi);
  }

  /** The metric block is shown after `load_data` exactly when some tree in the file has a geometry. */
  lemma SummaryShownIffSomeGeometry(raw: Table, parse: string -> Option<real>)
    ensures var l := Load(raw, parse);
      Summarize(l.table, l.dbhCol, l.replCol).Some? <==> exists k :: 0 <= k < |raw.rows| && raw.rows[k].geometry.Some?
  {
    var e := Enrich(raw, parse);
    EnrichRows(raw, parse);
    DropEmpty(e.table.rows);
    if exists k :: 0 <= k < |raw.rows| && raw.rows[k].geometry.Some? {
      var k :| 0 <= k < |raw.rows| && raw.rows[k].geometry.Some?;
      assert e.table.rows[k].geometry.Some?;
    }
  }

  /**
   * With the zero-filled diameter fallback the dashboard reports a mean
   * diameter of 0 and NO High-risk trees, since no row is labelled at all.
   */
  lemma FallbackDiameterMetrics(raw: Table, parse: string -> Option<real>)
    requires ChooseMapped(raw.columns, IsDiameterName).None?
    ensures var l := Load(raw, parse);
      Summarize(l.table, l.dbhCol, l.replCol).Some? ==>
        && Summarize(l.table, l.dbhCol, l.replCol).value.avgDbh == Some(0.0)
        && Summarize(l.table, l.dbhCol, l.replCol).value.highRiskPct == 0.0
  {
    var e := Enrich(raw, parse);
    var l := Load(raw, parse);
    FallbackDiameter(raw, parse);
    EnrichRows(raw, parse);
    forall k | 0 <= k < |l.table.rows|
      ensures Cell(l.table.rows[k], DefaultDiameter) == Num(0.0)
      ensures Cell(l.table.rows[k], RiskColumn) == Null
    {
      DropMembership(e.table.rows, l.table.rows[k]);
      var i :| 0 <= i < |e.table.rows| && e.table.rows[i] == l.table.rows[k];
      assert Column(e.table, DefaultDiameter)[i] == Cell(e.table.rows[i], DefaultDiameter);
    }
    ZeroDiameterSummary(l.table, l.dbhCol, l.replCol);
  }

  /** A table whose diameters are all 0 and whose rows are all unlabelled shows mean 0 and no High share. */
  lemma ZeroDiameterSummary(t: Table, dbhCol: string, replCol: string)
    requires forall k :: 0 <= k < |t.rows| ==> Cell(t.rows[k], dbhCol) == Num(0.0) && Cell(t.rows[k], RiskColumn) == Null
    ensures Summarize(t, dbhCol, replCol).Some? ==>
      && Summarize(t, dbhCol, replCol).value.avgDbh == Some(0.0)
      && Summarize(t, dbhCol, replCol).value.highRiskPct == 0.0
  {
    if |t.rows| > 0 {
      ConstantColumn(Numbers(Column(t, dbhCol)), 0.0);
    }
  }

  /** The three-tree table of the worked example: diameters 5, 15 and 25 and no value column. */
  function ThreeTrees(p: Point): Table
  {
    Table(["DBH"], [
      Row(Some(p), map["DBH" := Num(5.0)]),
      Row(Some(p), map["DBH" := Num(15.0)]),
      Row(Some(p), map["DBH" := Num(25.0)])])
  }

  /** In the worked example "DBH" is the diameter column and there is no value column. */
  lemma ThreeTreeInference(p: Point)
    ensures ChooseMapped(ThreeTrees(p).columns, IsDiameterName) == Some("DBH")
    ensures ChooseMapped(ThreeTrees(p).columns, IsReplacementName).None?
  {
    var cols := ThreeTrees(p).columns;
    assert Lower(cols[0]) == "dbh";
    ContainsAt("dbh", "dbh", 0);
    ChooseMappedSome(cols, IsDiameterName, 0, 0);
    NoOccurrence("dbh", "replace");
    NoOccurrence("dbh", "value");
    ChooseMappedNone(cols, IsReplacementName);
  }

  /** The worked example's diameter step coerces "DBH" in place. */
  lemma ThreeTreeDiameterStep(p: Point, parse: string -> Option<real>)
    ensures AfterDiameter(ThreeTrees(p), parse).0.columns == ["DBH"]
    ensures AfterDiameter(ThreeTrees(p), parse).1 == "DBH"
  {
    ThreeTreeInference(p);
  }

  /** The worked example's replacement step appends the zero-filled fallback column. */
  lemma ThreeTreeReplacementStep(p: Point, parse: string -> Option<real>)
    ensures AfterReplacement(ThreeTrees(p), parse).0.columns == ["DBH", DefaultReplacement]
    ensures AfterReplacement(ThreeTrees(p), parse).1 == DefaultReplacement
  {
    ThreeTreeInference(p);
    ThreeTreeDiameterStep(p, parse);
    assert DefaultReplacement !in ["DBH"];
  }

  /** The worked example after `load_data` keeps its three rows and gains two columns. */
  lemma ThreeTreeShape(p: Point, parse: string -> Option<real>)
    ensures var l := Load(ThreeTrees(p), parse);
      && l.dbhCol == "DBH"
      && l.replCol == DefaultReplacement
      && l.table == Enrich(ThreeTrees(p), parse).table
      && l.table.columns == ["DBH", DefaultReplacement, RiskColumn]
  {
    ThreeTreeEnrichColumns(p, parse);
    ThreeTreeKeepsRows(p, parse);
  }

  /** Enrichment of the worked example appends Risk_Level after the two value columns. */
  lemma ThreeTreeEnrichColumns(p: Point, parse: string -> Option<real>)
    ensures var e := Enrich(ThreeTrees(p), parse);
      && e.dbhCol == "DBH"
      && e.replCol == DefaultReplacement
      && e.table.columns == ["DBH", DefaultReplacement, RiskColumn]
  {
    ThreeTreeDiameterStep(p, parse);
    ThreeTreeReplacementStep(p, parse);
    assert RiskColumn !in ["DBH", DefaultReplacement];
  }

  /** Every tree of the worked example is located, so the geometry filter keeps them all. */
  lemma ThreeTreeKeepsRows(p: Point, parse: string -> Option<real>)
    ensures Load(ThreeTrees(p), parse).table == Enrich(ThreeTrees(p), parse).table
  {
    LoadKeepsLocated(ThreeTrees(p), parse);
  }

  /** What the loaded worked example holds in its three columns. */
  lemma ThreeTreeLoad(p: Point, parse: string -> Option<real>)
    ensures var l := Load(ThreeTrees(p), parse);
      && Column(l.table, "DBH") == [Num(5.0), Num(15.0), Num(25.0)]
      && Column(l.table, DefaultReplacement) == Zeros(3)
      && Column(l.table, RiskColumn) == [Label(Low), Label(Medium), Label(High)]
  {
    ThreeTreeKeepsRows(p, parse);
    ThreeTreeDiameters(p, parse);
    ThreeTreeValues(p, parse);
    ThreeTreeRisk(p, parse);
  }

  /** The example's "DBH" column is already numeric, so coercion leaves it as read. */
  lemma ThreeTreeDiameters(p: Point, parse: string -> Option<real>)
    ensures Column(Enrich(ThreeTrees(p), parse).table, "DBH") == [Num(5.0), Num(15.0), Num(25.0)]
  {
    var raw := ThreeTrees(p);
    ThreeTreeInference(p);
    ChosenDiameterCoerced(raw, parse, "DBH");
    assert Column(raw, "DBH") == [Num(5.0), Num(15.0), Num(25.0)];
  }

  /** The example has no value column, so it gets the zero-filled fallback. */
  lemma ThreeTreeValues(p: Point, parse: string -> Option<real>)
    ensures Column(Enrich(ThreeTrees(p), parse).table, DefaultReplacement) == Zeros(3)
  {
    ThreeTreeInference(p);
    FallbackReplacement(ThreeTrees(p), parse);
  }

  /** The example's diameters 5, 15 and 25 are labelled Low, Medium and High. */
  lemma ThreeTreeRisk(p: Point, parse: string -> Option<real>)
    ensures Column(Enrich(ThreeTrees(p), parse).table, RiskColumn) == [Label(Low), Label(Medium), Label(High)]
  {
    ThreeTreeEnrichColumns(p, parse);
    ThreeTreeDiameters(p, parse);
    EnrichRiskAgrees(ThreeTrees(p), parse);
  }

  /** The mean of the worked example's diameters. */
  lemma ThreeTreeMean()
    ensures Mean([Some(5.0), Some(15.0), Some(25.0)]) == Some(15.0)
  {
  }

  /** None of the loaded worked example's columns is a carbon-storage column. */
  lemma ThreeTreeNoCarbon()
    ensures FirstColumn(["DBH", DefaultReplacement, RiskColumn], IsCarbonName).None?
  {
    var cols := ["DBH", DefaultReplacement, RiskColumn];
    assert Lower(cols[0]) == "dbh";
    assert Lower(cols[1]) == "replacement_value";
    assert Lower(cols[2]) == "risk_level";
    NoOccurrence("dbh", "carbon");
    NoOccurrence("replacement_value", "carbon");
    NoOccurrence("risk_level", "carbon");
    FirstColumnSpec(cols, IsCarbonName);
  }

  /** One High tree out of three is a third of the trees. */
  lemma OneHighInThree(t: Table)
    requires |t.rows| == 3 && Column(t, RiskColumn) == [Label(Low), Label(Medium), Label(High)]
    ensures HighRiskPercent(t) == 100.0 / 3.0
  {
    assert CountLabel([Label(Low), Label(Medium), Label(High)], High) == 1;
  }

  /** With no carbon column the worked example's carbon figure is 5 times its mean diameter of 15. */
  lemma ThreeTreeCarbon(t: Table)
    requires t.columns == ["DBH", DefaultReplacement, RiskColumn]
    requires Column(t, "DBH") == [Num(5.0), Num(15.0), Num(25.0)]
    ensures AverageCarbon(t, "DBH") == Some(75.0)
  {
    ThreeTreeNoCarbon();
    assert Numbers(Column(t, "DBH")) == [Some(5.0), Some(15.0), Some(25.0)];
    ThreeTreeMean();
  }

  /** The metric cards of any three-row table holding what the loaded worked example holds. */
  lemma ThreeTreeSummary(t: Table)
    requires |t.rows| == 3
    requires t.columns == ["DBH", DefaultReplacement, RiskColumn]
    requires Column(t, "DBH") == [Num(5.0), Num(15.0), Num(25.0)]
    requires Column(t, DefaultReplacement) == Zeros(3)
    requires Column(t, RiskColumn) == [Label(Low), Label(Medium), Label(High)]
    ensures Summarize(t, "DBH", DefaultReplacement) == Some(Summary(3, Some(15.0), 0.0, 100.0 / 3.0, Some(75.0)))
  {
    assert Numbers(Column(t, "DBH")) == [Some(5.0), Some(15.0), Some(25.0)];
    ThreeTreeMean();
    ConstantColumn(Numbers(Zeros(3)), 0.0);
    OneHighInThree(t);
    ThreeTreeCarbon(t);
  }

  /**
   * Worked example: diameters [5, 15, 25] with no replacement-value column are
   * labelled [Low, Medium, High]; the cards show 3 trees, a mean diameter of 15,
   * a total value of 0, one High tree in three, and a carbon figure of 15 * 5.
   */
  lemma ThreeTreeExample(p: Point, parse: string -> Option<real>)
    ensures var l := Load(ThreeTrees(p), parse);
      Summarize(l.table, l.dbhCol, l.replCol) == Some(Summary(3, Some(15.0), 0.0, 100.0 / 3.0, Some(75.0)))
  {
    var l := Load(ThreeTrees(p), parse);
    ThreeTreeShape(p, parse);
    ThreeTreeLoad(p, parse);
    EnrichRows(ThreeTrees(p), parse);
    ThreeTreeSummary(l.table);
  }
}
