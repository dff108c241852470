/**
 * `load_data` after the file has been read: column inference, numeric
 * coercion or a zero-filled fallback column, the Risk_Level column and
 * the geometry filter.
 */
module Loader {
  import opened Wrappers
  import opened Text
  import opened Risk
  import opened Frame
  import opened Columns

  /** The names `load_data` falls back to, and the column it adds for the risk label. */
  const DefaultDiameter: string := "DBH__in_"
  const DefaultReplacement: string := "Replacement_Value"
  const RiskColumn: string := "Risk_Level"

  /** What `load_data` returns: the table and the two column names it settled on. */
  datatype Loaded = Loaded(table: Table, dbhCol: string, replCol: string)

  /**
   * `pd.to_numeric(v, errors="coerce")` on one cell: numbers stay, text goes
   * through `parse` (missing when it does not parse), everything else is missing.
   */
  function ToNumeric(v: Value, parse: string -> Option<real>): (r: Value)
    ensures r.Null? || r.Num?
    ensures v.Num? ==> r == v
  {
    match v
    case Num(_) => v
    case Str(s) => (match parse(s) case Some(x) => Num(x) case None => Null)
    case Null => Null
    case Label(_) => Null
  }

  /** `pd.to_numeric` on a whole column. */
  function Coerce(vals: seq<Value>, parse: string -> Option<real>): (r: seq<Value>)
    ensures |r| == |vals|
    ensures forall i :: 0 <= i < |vals| ==> r[i] == ToNumeric(vals[i], parse)
  {
    seq(|vals|, i requires 0 <= i < |vals| => ToNumeric(vals[i], parse))
  }

  /** `gdf[name] = 0`: a zero in every row. */
  function Zeros(n: nat): (r: seq<Value>)
    ensures |r| == n
  {
    seq(n, i => Num(0.0))
  }

  /** The cell pd.cut leaves in Risk_Level: a category, or missing. */
  function LabelValue(o: Option<Risk>): Value
  {
    match o
    case Some(r) => Label(r)
    case None => Null
  }

  /** `pd.cut(gdf[dbh_col], bins=[0, 10, 20, 999], labels=[...])` over a column. */
  function RiskLabels(vals: seq<Value>): (r: seq<Value>)
    ensures |r| == |vals|
    ensures forall i :: 0 <= i < |vals| ==>
      (r[i] == Label(High) <==> AsNumber(vals[i]).Some? && 20.0 < AsNumber(vals[i]).value <= 999.0)
  {
    seq(|vals|, i requires 0 <= i < |vals| => LabelValue(Classify(AsNumber(vals[i]))))
  }

  /**
   * One `if col: gdf[col] = pd.to_numeric(...) else: gdf[fallback] = 0` step
   * (app.py lines 92-102): the new table and the column name to use from now on.
   */
  function Numericize(t: Table, chosen: Option<string>, fallback: string, parse: string -> Option<real>): (r: (Table, string))
    ensures r.1 in r.0.columns && |r.0.rows| == |t.rows|
    ensures forall k :: 0 <= k < |r.0.rows| ==> Cell(r.0.rows[k], r.1).Num? || Cell(r.0.rows[k], r.1).Null?
  {
    match chosen
    case Some(c) => (SetColumn(t, c, Coerce(Column(t, c), parse)), c)
    case None => (SetColumn(t, fallback, Zeros(|t.rows|)), fallback)
  }

  /** The two intermediate tables of `load_data`: after the diameter step and after the replacement step. */
  function AfterDiameter(raw: Table, parse: string -> Option<real>): (Table, string)
  {
    Numericize(raw, ChooseMapped(raw.columns, IsDiameterName), DefaultDiameter, parse)
  }

  function AfterReplacement(raw: Table, parse: string -> Option<real>): (Table, string)
  {
    Numericize(AfterDiameter(raw, parse).0, ChooseMapped(raw.columns, IsReplacementName), DefaultReplacement, parse)
  }

  /** `load_data` up to, but not including, the geometry filter: the two steps, then the Risk_Level assignment. */
  function Enrich(raw: Table, parse: string -> Option<real>): (e: Loaded)
    ensures |e.table.rows| == |raw.rows| && RiskColumn in e.table.columns
  {
    var dbhCol := AfterDiameter(raw, parse).1;
    var (t2, replCol) := AfterReplacement(raw, parse);
    Loaded(SetColumn(t2, RiskColumn, RiskLabels(Column(t2, dbhCol))), dbhCol, replCol)
  }

  /** `load_data` on an already read table. */
  function Load(raw: Table, parse: string -> Option<real>): (l: Loaded)
    ensures |l.table.rows| <= |raw.rows| && RiskColumn in l.table.columns
    ensures forall k :: 0 <= k < |l.table.rows| ==> l.table.rows[k].geometry.Some?
  {
    var e := Enrich(raw, parse);
    Loaded(Table(e.table.columns, DropMissingGeometry(e.table.rows)), e.dbhCol, e.replCol)
  }

  /**
   * The in-place version run on the frame object: the column assignments of
   * app.py lines 93-109 update `gdf`, and `dropna` returns a new frame.
   */
  method LoadData(gdf: GeoFrame, parse: string -> Option<real>) returns (out: GeoFrame, dbhCol: string, replCol: string)
    requires gdf.Valid()
    modifies gdf
    ensures gdf.Valid() && out.Valid() && fresh(out)
    ensures gdf.View() == Enrich(old(gdf.View()), parse).table
    ensures Loaded(out.View(), dbhCol, replCol) == Load(old(gdf.View()), parse)
  {
    var dbh := ChooseMapped(gdf.columns, IsDiameterName);
    var repl := ChooseMapped(gdf.columns, IsReplacementName);
    if dbh.Some? {
      dbhCol := dbh.value;
      gdf.Assign(dbhCol, Coerce(Column(gdf.View(), dbhCol), parse));
    } else {
      gdf.Assign(DefaultDiameter, Zeros(|gdf.rows|));
      dbhCol := DefaultDiameter;
    }
    if repl.Some? {
      replCol := repl.value;
      gdf.Assign(replCol, Coerce(Column(gdf.View(), replCol), parse));
    } else {
      gdf.Assign(DefaultReplacement, Zeros(|gdf.rows|));
      replCol := DefaultReplacement;
    }
    gdf.Assign(RiskColumn, RiskLabels(Column(gdf.View(), dbhCol)));
    DropWellFormed(gdf.View());
    out := new GeoFrame(Table(gdf.columns, DropMissingGeometry(gdf.rows)));
  }

  /** pd.to_numeric on a column it already converted changes nothing. */
  lemma CoerceIdempotent(vals: seq<Value>, parse: string -> Option<real>)
    ensures Coerce(Coerce(vals, parse), parse) == Coerce(vals, parse)
  {
  }

  /** The diameter fallback name would itself have been matched, had it been among the columns. */
  lemma DiameterFallbackMatches()
    ensures IsDiameterName(Lower(DefaultDiameter))
  {
    assert Lower(DefaultDiameter)[..3] == "dbh";
    ContainsAt(Lower(DefaultDiameter), "dbh", 0);
  }

  /** The replacement fallback name would itself have been matched, had it been among the columns. */
  lemma ReplacementFallbackMatches()
    ensures IsReplacementName(Lower(DefaultReplacement))
  {
    assert Lower(DefaultReplacement)[..7] == "replace";
    ContainsAt(Lower(DefaultReplacement), "replace", 0);
  }

  /** The Risk_Level column `load_data` adds matches neither role. */
  lemma RiskColumnMatchesNothing()
    ensures !IsDiameterName(Lower(RiskColumn)) && !IsReplacementName(Lower(RiskColumn))
  {
    assert Lower(RiskColumn) == "risk_level";
    NoOccurrence("risk_level", "dbh");
    NoOccurrence("risk_level", "diam");
    NoOccurrence("risk_level", "replace");
    NoOccurrence("risk_level", "value");
  }

  /**
   * The geometry column, part of `gdf.columns` but kept apart from the
   * attribute columns in this model, is never picked by any of the lookups.
   */
  lemma GeometryNameMatchesNothing()
    ensures !IsDiameterName(Lower("geometry"))
    ensures !IsReplacementName(Lower("geometry"))
    ensures !IsCarbonName(Lower("geometry"))
  {
    assert Lower("geometry") == "geometry";
    NoOccurrence("geometry", "dbh");
    NoOccurrence("geometry", "diam");
    NoOccurrence("geometry", "replace");
    NoOccurrence("geometry", "value");
    NoOccurrence("geometry", "carbon");
  }

  /** A fallback name is only used when no column had it, so it is always a new column. */
  lemma FallbackIsFresh(cols: seq<string>)
    ensures ChooseMapped(cols, IsDiameterName).None? ==> DefaultDiameter !in cols
    ensures ChooseMapped(cols, IsReplacementName).None? ==> DefaultReplacement !in cols
  {
    DiameterFallbackMatches();
    ReplacementFallbackMatches();
    ChooseMappedNone(cols, IsDiameterName);
    ChooseMappedNone(cols, IsReplacementName);
  }

  /** Neither column name `load_data` returns is Risk_Level. */
  lemma ChosenNotRiskColumn(raw: Table, parse: string -> Option<real>)
    ensures Enrich(raw, parse).dbhCol != RiskColumn
    ensures Enrich(raw, parse).replCol != RiskColumn
  {
    RiskColumnMatchesNothing();
    if ChooseMapped(raw.columns, IsDiameterName).Some? {
    }
    if ChooseMapped(raw.columns, IsReplacementName).Some? {
    }
  }

  /** One coercion-or-fallback step writes its column and leaves the others alone. */
  lemma NumericizeEffect(t: Table, chosen: Option<string>, fallback: string, parse: string -> Option<real>)
    ensures var (r, c) := Numericize(t, chosen, fallback, parse);
      && |r.rows| == |t.rows|
      && (forall i :: 0 <= i < |t.rows| ==> r.rows[i].geometry == t.rows[i].geometry)
      && r.columns[..|t.columns|] == t.columns
      && c in r.columns
      && Column(r, c) == (if chosen.Some? then Coerce(Column(t, c), parse) else Zeros(|t.rows|))
      && (forall other :: other != c ==> Column(r, other) == Column(t, other))
  {
    var (r, c) := Numericize(t, chosen, fallback, parse);
    var vals := if chosen.Some? then Coerce(Column(t, c), parse) else Zeros(|t.rows|);
    SetColumnWrites(t, c, vals);
    SetColumnNames(t, c, vals);
    forall other | other != c
      ensures Column(r, other) == Column(t, other)
    {
      SetColumnKeeps(t, c, vals, other);
    }
  }

  /**
   * Enrichment keeps the rows and their geometries, keeps the original columns
   * in their order, and the returned names and Risk_Level are columns of the result.
   */
  lemma EnrichShape(raw: Table, parse: string -> Option<real>)
    ensures var e := Enrich(raw, parse);
      && |e.table.rows| == |raw.rows|
      && (forall i :: 0 <= i < |raw.rows| ==> e.table.rows[i].geometry == raw.rows[i].geometry)
      && e.table.columns[..|raw.columns|] == raw.columns
      && e.dbhCol in e.table.columns && e.replCol in e.table.columns && RiskColumn in e.table.columns
      && (forall x :: x in e.table.columns <==> x in raw.columns || x == e.dbhCol || x == e.replCol || x == RiskColumn)
  {
    EnrichRows(raw, parse);
    EnrichColumns(raw, parse);
    EnrichColumnSet(raw, parse);
  }

  /** Enrichment adds no column besides the two returned names and Risk_Level. */
  lemma EnrichColumnSet(raw: Table, parse: string -> Option<real>)
    ensures var e := Enrich(raw, parse);
      forall x :: x in e.table.columns <==> x in raw.columns || x == e.dbhCol || x == e.replCol || x == RiskColumn
  {
    var (t1, d) := AfterDiameter(raw, parse);
    var (t2, rc) := AfterReplacement(raw, parse);
    SetColumnNames(raw, d, Column(t1, d));
    SetColumnNames(t1, rc, Column(t2, rc));
    SetColumnNames(t2, RiskColumn, RiskLabels(Column(t2, d)));
  }

  /** Every column of the enriched table is a file column or one of the two fallback names or Risk_Level. */
  lemma EnrichColumnOrigin(raw: Table, parse: string -> Option<real>)
    ensures var e := Enrich(raw, parse);
      forall x :: x in e.table.columns ==> x in raw.columns || x == DefaultDiameter || x == DefaultReplacement || x == RiskColumn
  {
    EnrichColumnSet(raw, parse);
  }

  /** None of the names load_data may add looks like a carbon-storage column. */
  lemma AddedNamesNotCarbon()
    ensures !IsCarbonName(Lower(DefaultDiameter))
    ensures !IsCarbonName(Lower(DefaultReplacement))
    ensures !IsCarbonName(Lower(RiskColumn))
  {
    DiameterFallbackNotCarbon();
    ReplacementFallbackNotCarbon();
    RiskColumnNotCarbon();
  }

  /** "DBH__in_" does not look like a carbon-storage column. */
  lemma DiameterFallbackNotCarbon()
    ensures !IsCarbonName(Lower(DefaultDiameter))
  {
    assert Lower(DefaultDiameter) == "dbh__in_";
    NoOccurrence("dbh__in_", "carbon");
  }

  /** "Replacement_Value" does not look like a carbon-storage column. */
  lemma ReplacementFallbackNotCarbon()
    ensures !IsCarbonName(Lower(DefaultReplacement))
  {
    assert Lower(DefaultReplacement) == "replacement_value";
    NoOccurrence("replacement_value", "carbon");
  }

  /** "Risk_Level" does not look like a carbon-storage column. */
  lemma RiskColumnNotCarbon()
    ensures !IsCarbonName(Lower(RiskColumn))
  {
    assert Lower(RiskColumn) == "risk_level";
    NoOccurrence("risk_level", "carbon");
  }

  /** A coercion-or-fallback step keeps the rows and their geometries. */
  lemma NumericizeRows(t: Table, chosen: Option<string>, fallback: string, parse: string -> Option<real>)
    ensures var r := Numericize(t, chosen, fallback, parse).0;
      && |r.rows| == |t.rows|
      && (forall i :: 0 <= i < |t.rows| ==> r.rows[i].geometry == t.rows[i].geometry)
  {
    var (r, c) := Numericize(t, chosen, fallback, parse);
    SetColumnWrites(t, c, if chosen.Some? then Coerce(Column(t, c), parse) else Zeros(|t.rows|));
  }

  /** A coercion-or-fallback step keeps the column order and every old column. */
  lemma NumericizeColumns(t: Table, chosen: Option<string>, fallback: string, parse: string -> Option<real>)
    ensures var r := Numericize(t, chosen, fallback, parse).0;
      && |t.columns| <= |r.columns|
      && r.columns[..|t.columns|] == t.columns
      && (forall x :: x in t.columns ==> x in r.columns)
  {
    var (r, c) := Numericize(t, chosen, fallback, parse);
    SetColumnNames(t, c, if chosen.Some? then Coerce(Column(t, c), parse) else Zeros(|t.rows|));
  }

  /** Enrichment keeps the rows and their geometries. */
  lemma EnrichRows(raw: Table, parse: string -> Option<real>)
    ensures var e := Enrich(raw, parse);
      && |e.table.rows| == |raw.rows|
      && (forall i :: 0 <= i < |raw.rows| ==> e.table.rows[i].geometry == raw.rows[i].geometry)
  {
    var (t1, d) := AfterDiameter(raw, parse);
    var t2 := AfterReplacement(raw, parse).0;
    NumericizeRows(raw, ChooseMapped(raw.columns, IsDiameterName), DefaultDiameter, parse);
    NumericizeRows(t1, ChooseMapped(raw.columns, IsReplacementName), DefaultReplacement, parse);
    SetColumnWrites(t2, RiskColumn, RiskLabels(Column(t2, d)));
  }

  /** Enrichment keeps the original columns in order, and its three named columns exist. */
  lemma EnrichColumns(raw: Table, parse: string -> Option<real>)
    ensures var e := Enrich(raw, parse);
      && e.table.columns[..|raw.columns|] == raw.columns
      && e.dbhCol in e.table.columns && e.replCol in e.table.columns && RiskColumn in e.table.columns
  {
    var (t1, d) := AfterDiameter(raw, parse);
    var t2 := AfterReplacement(raw, parse).0;
    var labels := RiskLabels(Column(t2, d));
    NumericizeColumns(raw, ChooseMapped(raw.columns, IsDiameterName), DefaultDiameter, parse);
    NumericizeColumns(t1, ChooseMapped(raw.columns, IsReplacementName), DefaultReplacement, parse);
    SetColumnNames(t2, RiskColumn, labels);
    PrefixTransitive(raw.columns, t1.columns, t2.columns, Enrich(raw, parse).table.columns);
  }

  /** When every record is located, the geometry filter keeps the enriched table as it is. */
  lemma LoadKeepsLocated(raw: Table, parse: string -> Option<real>)
    requires forall k :: 0 <= k < |raw.rows| ==> raw.rows[k].geometry.Some?
    ensures Load(raw, parse).table == Enrich(raw, parse).table
  {
    var e := Enrich(raw, parse);
    EnrichRows(raw, parse);
    DropNothingMissing(e.table.rows);
  }

  /** Keeping a prefix is transitive over the three column assignments. */
  lemma PrefixTransitive(a: seq<string>, b: seq<string>, c: seq<string>, d: seq<string>)
    requires |a| <= |b| <= |c| <= |d|
    requires b[..|a|] == a && c[..|b|] == b && d[..|c|] == c
    ensures d[..|a|] == a
  {
    assert forall i :: 0 <= i < |a| ==> d[i] == c[i] == b[i] == a[i];
  }

  /** Risk_Level holds the pd.cut label of the final diameter column, row by row. */
  lemma EnrichRiskAgrees(raw: Table, parse: string -> Option<real>)
    ensures var e := Enrich(raw, parse);
      Column(e.table, RiskColumn) == RiskLabels(Column(e.table, e.dbhCol))
  {
    var t2 := AfterReplacement(raw, parse).0;
    var d := AfterDiameter(raw, parse).1;
    var labels := RiskLabels(Column(t2, d));
    SetColumnWrites(t2, RiskColumn, labels);
    ChosenNotRiskColumn(raw, parse);
    SetColumnKeeps(t2, RiskColumn, labels, d);
  }

  /** Every column other than the two chosen ones and Risk_Level is left exactly as read. */
  lemma EnrichKeepsOthers(raw: Table, parse: string -> Option<real>, c: string)
    requires c != Enrich(raw, parse).dbhCol && c != Enrich(raw, parse).replCol && c != RiskColumn
    ensures Column(Enrich(raw, parse).table, c) == Column(raw, c)
  {
    var t1 := AfterDiameter(raw, parse).0;
    NumericizeEffect(raw, ChooseMapped(raw.columns, IsDiameterName), DefaultDiameter, parse);
    NumericizeEffect(t1, ChooseMapped(raw.columns, IsReplacementName), DefaultReplacement, parse);
    EnrichKeepsStepColumns(raw, parse, c);
  }

  /** In the final table, every column other than Risk_Level reads as after the two steps. */
  lemma EnrichKeepsStepColumns(raw: Table, parse: string -> Option<real>, c: string)
    requires c != RiskColumn
    ensures Column(Enrich(raw, parse).table, c) == Column(AfterReplacement(raw, parse).0, c)
  {
    var t2 := AfterReplacement(raw, parse).0;
    SetColumnKeeps(t2, RiskColumn, RiskLabels(Column(t2, AfterDiameter(raw, parse).1)), c);
  }

  /** A matched diameter column ends up holding pd.to_numeric of its original cells. */
  lemma ChosenDiameterCoerced(raw: Table, parse: string -> Option<real>, c: string)
    requires ChooseMapped(raw.columns, IsDiameterName) == Some(c)
    ensures Enrich(raw, parse).dbhCol == c
    ensures Column(Enrich(raw, parse).table, c) == Coerce(Column(raw, c), parse)
  {
    var t1 := AfterDiameter(raw, parse).0;
    var rc := AfterReplacement(raw, parse).1;
    NumericizeEffect(raw, Some(c), DefaultDiameter, parse);
    NumericizeEffect(t1, ChooseMapped(raw.columns, IsReplacementName), DefaultReplacement, parse);
    ChosenNotRiskColumn(raw, parse);
    EnrichKeepsStepColumns(raw, parse, c);
    if rc == c {
      CoerceIdempotent(Column(raw, c), parse);
      assert ChooseMapped(raw.columns, IsReplacementName).Some? by {
        if ChooseMapped(raw.columns, IsReplacementName).None? {
          FallbackIsFresh(raw.columns);
        }
      }
    }
  }

  /**
   * A matched replacement column ends up holding pd.to_numeric of its original
   * cells, also when the same column was matched as the diameter column.
   */
  lemma ChosenReplacementCoerced(raw: Table, parse: string -> Option<real>, c: string)
    requires ChooseMapped(raw.columns, IsReplacementName) == Some(c)
    ensures Enrich(raw, parse).replCol == c
    ensures Column(Enrich(raw, parse).table, c) == Coerce(Column(raw, c), parse)
  {
    var (t1, d) := AfterDiameter(raw, parse);
    NumericizeEffect(raw, ChooseMapped(raw.columns, IsDiameterName), DefaultDiameter, parse);
    NumericizeEffect(t1, Some(c), DefaultReplacement, parse);
    ChosenNotRiskColumn(raw, parse);
    EnrichKeepsStepColumns(raw, parse, c);
    if d == c {
      CoerceIdempotent(Column(raw, c), parse);
      assert ChooseMapped(raw.columns, IsDiameterName).Some? by {
        if ChooseMapped(raw.columns, IsDiameterName).None? {
          FallbackIsFresh(raw.columns);
        }
      }
    }
  }

  /**
   * Without a diameter-like column, `load_data` adds DBH__in_ filled with 0,
   * and pd.cut then labels NO row (0 is outside (0, 999]) rather than Low.
   */
  lemma FallbackDiameter(raw: Table, parse: string -> Option<real>)
    requires ChooseMapped(raw.columns, IsDiameterName).None?
    ensures var e := Enrich(raw, parse);
      && e.dbhCol == DefaultDiameter
      && DefaultDiameter !in raw.columns
      && Column(e.table, DefaultDiameter) == Zeros(|raw.rows|)
      && forall i :: 0 <= i < |e.table.rows| ==> Cell(e.table.rows[i], RiskColumn) == Null
  {
    var e := Enrich(raw, parse);
    var t1 := AfterDiameter(raw, parse).0;
    var rc := AfterReplacement(raw, parse).1;
    FallbackIsFresh(raw.columns);
    NumericizeEffect(raw, None, DefaultDiameter, parse);
    NumericizeEffect(t1, ChooseMapped(raw.columns, IsReplacementName), DefaultReplacement, parse);
    assert rc != DefaultDiameter by {
      if ChooseMapped(raw.columns, IsReplacementName).Some? {
      }
    }
    EnrichRiskAgrees(raw, parse);
    EnrichKeepsStepColumns(raw, parse, DefaultDiameter);
    ZeroHasNoLabel();
    forall i | 0 <= i < |e.table.rows|
      ensures Cell(e.table.rows[i], RiskColumn) == Null
    {
      assert Column(e.table, RiskColumn)[i] == Cell(e.table.rows[i], RiskColumn);
      assert Column(e.table, DefaultDiameter)[i] == Num(0.0);
    }
  }

  /** Without a replacement-like column, `load_data` adds Replacement_Value filled with 0. */
  lemma FallbackReplacement(raw: Table, parse: string -> Option<real>)
    requires ChooseMapped(raw.columns, IsReplacementName).None?
    ensures var e := Enrich(raw, parse);
      && e.replCol == DefaultReplacement
      && DefaultReplacement !in raw.columns
      && Column(e.table, DefaultReplacement) == Zeros(|raw.rows|)
  {
    var t1 := AfterDiameter(raw, parse).0;
    FallbackIsFresh(raw.columns);
    NumericizeEffect(t1, None, DefaultReplacement, parse);
    EnrichKeepsStepColumns(raw, parse, DefaultReplacement);
  }

  /**
   * After `load_data` every row has a geometry and a Risk_Level that is the
   * label of its diameter cell; one row survives per input row with geometry,
   * and a well-formed input gives a well-formed output.
   */
  lemma LoadRows(raw: Table, parse: string -> Option<real>)
    ensures var l := Load(raw, parse);
      && |l.table.rows| == CountWithGeometry(raw.rows)
      && (forall k :: 0 <= k < |l.table.rows| ==> l.table.rows[k].geometry.Some?)
      && (forall k :: 0 <= k < |l.table.rows| ==>
            Cell(l.table.rows[k], RiskColumn) == LabelValue(Classify(AsNumber(Cell(l.table.rows[k], l.dbhCol)))))
      && (WellFormed(raw) ==> WellFormed(l.table))
  {
    var e := Enrich(raw, parse);
    var l := Load(raw, parse);
    EnrichRows(raw, parse);
    EnrichRiskAgrees(raw, parse);
    DropLength(e.table.rows);
    SameGeometryCount(e.table.rows, raw.rows);
    forall k | 0 <= k < |l.table.rows|
      ensures Cell(l.table.rows[k], RiskColumn) == LabelValue(Classify(AsNumber(Cell(l.table.rows[k], l.dbhCol))))
    {
      DropMembership(e.table.rows, l.table.rows[k]);
      var i :| 0 <= i < |e.table.rows| && e.table.rows[i] == l.table.rows[k];
      assert Column(e.table, RiskColumn)[i] == Cell(e.table.rows[i], RiskColumn);
      assert Column(e.table, e.dbhCol)[i] == Cell(e.table.rows[i], e.dbhCol);
    }
    if WellFormed(raw) {
      EnrichWellFormed(raw, parse);
      DropWellFormed(e.table);
    }
  }

  /** Two row lists with the same geometries, row by row, have the same number of rows with geometry. */
  lemma {:induction false} SameGeometryCount(a: seq<Row>, b: seq<Row>)
    requires |a| == |b| && forall i :: 0 <= i < |a| ==> a[i].geometry == b[i].geometry
    ensures CountWithGeometry(a) == CountWithGeometry(b)
  {
    if a != [] {
      SameGeometryCount(a[1..], b[1..]);
    }
  }

  /** Enrichment keeps a table well formed. */
  lemma EnrichWellFormed(raw: Table, parse: string -> Option<real>)
    requires WellFormed(raw)
    ensures WellFormed(Enrich(raw, parse).table)
  {
    var (t1, d) := AfterDiameter(raw, parse);
    var t2 := AfterReplacement(raw, parse).0;
    NumericizeWellFormed(raw, ChooseMapped(raw.columns, IsDiameterName), DefaultDiameter, parse);
    NumericizeWellFormed(t1, ChooseMapped(raw.columns, IsReplacementName), DefaultReplacement, parse);
    SetColumnWellFormed(t2, RiskColumn, RiskLabels(Column(t2, d)));
  }

  /** A coercion-or-fallback step keeps a table well formed. */
  lemma NumericizeWellFormed(t: Table, chosen: Option<string>, fallback: string, parse: string -> Option<real>)
    requires WellFormed(t)
    ensures WellFormed(Numericize(t, chosen, fallback, parse).0)
  {
    var c := Numericize(t, chosen, fallback, parse).1;
    SetColumnWellFormed(t, c, if chosen.Some? then Coerce(Column(t, c), parse) else Zeros(|t.rows|));
  }
}
