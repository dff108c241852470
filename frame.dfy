/**
 * The GeoDataFrame the dashboard works on: an ordered list of attribute
 * columns and a list of rows, each row holding an optional point geometry
 * and one cell per column.
 */
module Frame {
  import opened Wrappers
  import opened Risk

  /** A point geometry after reprojection to longitude/latitude. */
  datatype Point = Point(x: real, y: real)

  /** One attribute cell: missing, a number, text, or a pd.cut risk category. */
  datatype Value = Null | Num(x: real) | Str(s: string) | Label(level: Risk)

  datatype Row = Row(geometry: Option<Point>, attrs: map<string, Value>)

  /** The attribute column names, in column order, and the rows. */
  datatype Table = Table(columns: seq<string>, rows: seq<Row>)

  /** The numeric reading of a cell that aggregations use: numbers count, everything else is missing. */
  function AsNumber(v: Value): Option<real>
  {
    if v.Num? then Some(v.x) else None
  }

  /** The cell of a row under a column name (missing if the row has no such cell). */
  function Cell(r: Row, name: string): Value
  {
    if name in r.attrs then r.attrs[name] else Null
  }

  /** `gdf[name]`: the column's cells, one per row, in row order. */
  function Column(t: Table, name: string): (vals: seq<Value>)
    ensures |vals| == |t.rows|
    ensures forall i :: 0 <= i < |t.rows| ==> vals[i] == Cell(t.rows[i], name)
  {
    seq(|t.rows|, i requires 0 <= i < |t.rows| => Cell(t.rows[i], name))
  }

  /** A well-formed table: distinct column names, and every row has exactly one cell per column. */
  ghost predicate WellFormed(t: Table)
  {
    && (forall i, j :: 0 <= i < j < |t.columns| ==> t.columns[i] != t.columns[j])
    && (forall k :: 0 <= k < |t.rows| ==> t.rows[k].attrs.Keys == set c | c in t.columns)
  }

  /**
   * `gdf[name] = vals`: overwrites an existing column in place or appends a new
   * column at the end; rows and geometries are otherwise untouched.
   */
  function SetColumn(t: Table, name: string, vals: seq<Value>): (r: Table)
    requires |vals| == |t.rows|
    ensures name in r.columns && |r.rows| == |t.rows|
  {
    Table(
      if name in t.columns then t.columns else t.columns + [name],
      seq(|t.rows|, i requires 0 <= i < |t.rows| => t.rows[i].(attrs := t.rows[i].attrs[name := vals[i]])))
  }

  /** A column assignment writes `vals` under `name` and keeps the rows and their geometries. */
  lemma SetColumnWrites(t: Table, name: string, vals: seq<Value>)
    requires |vals| == |t.rows|
    ensures var r := SetColumn(t, name, vals);
      && |r.rows| == |t.rows|
      && Column(r, name) == vals
      && (forall i :: 0 <= i < |t.rows| ==> r.rows[i].geometry == t.rows[i].geometry)
  {
  }

  /** A column assignment leaves every other column as it was. */
  lemma SetColumnKeeps(t: Table, name: string, vals: seq<Value>, other: string)
    requires |vals| == |t.rows| && other != name
    ensures Column(SetColumn(t, name, vals), other) == Column(t, other)
  {
    var r := SetColumn(t, name, vals);
    assert forall i :: 0 <= i < |t.rows| ==> Cell(r.rows[i], other) == Cell(t.rows[i], other);
  }

  /** A column assignment keeps the column order and appends the name when it is new. */
  lemma SetColumnNames(t: Table, name: string, vals: seq<Value>)
    requires |vals| == |t.rows|
    ensures var r := SetColumn(t, name, vals);
      && |r.columns| == |t.columns| + (if name in t.columns then 0 else 1)
      && r.columns[..|t.columns|] == t.columns
      && (forall c :: c in r.columns <==> c in t.columns || c == name)
  {
  }

  /** A column assignment keeps a table well formed. */
  lemma SetColumnWellFormed(t: Table, name: string, vals: seq<Value>)
    requires WellFormed(t) && |vals| == |t.rows|
    ensures WellFormed(SetColumn(t, name, vals))
  {
    var r := SetColumn(t, name, vals);
    assert (set c | c in r.columns) == (set c | c in t.columns) + {name};
    if name !in t.columns {
      forall i, j | 0 <= i < j < |r.columns|
        ensures r.columns[i] != r.columns[j]
      {
        if j == |t.columns| {
          assert r.columns[j] == name && r.columns[i] == t.columns[i];
        }
      }
    }
  }

  /** `gdf.dropna(subset=["geometry"])`: the rows whose geometry is present, in their order. */
  function DropMissingGeometry(rows: seq<Row>): (r: seq<Row>)
    ensures |r| <= |rows|
    ensures forall k :: 0 <= k < |r| ==> r[k].geometry.Some?
  {
    if rows == [] then []
    else if rows[0].geometry.Some? then [rows[0]] + DropMissingGeometry(rows[1..])
    else DropMissingGeometry(rows[1..])
  }

  /** The filter works row by row: dropping from a concatenation concatenates the results, so order is kept. */
  lemma {:induction false} DropDistributes(a: seq<Row>, b: seq<Row>)
    ensures DropMissingGeometry(a + b) == DropMissingGeometry(a) + DropMissingGeometry(b)
  {
    if a != [] {
      assert (a + b)[1..] == a[1..] + b;
      DropDistributes(a[1..], b);
    } else {
      assert a + b == b;
    }
  }

  /** A row survives the filter exactly when it was in the table and has a geometry. */
  lemma {:induction false} DropMembership(rows: seq<Row>, x: Row)
    ensures x in DropMissingGeometry(rows) <==> x in rows && x.geometry.Some?
  {
    if rows != [] {
      DropMembership(rows[1..], x);
      assert rows == [rows[0]] + rows[1..];
    }
  }

  /** Nothing is dropped from a table whose rows all have a geometry. */
  lemma {:induction false} DropNothingMissing(rows: seq<Row>)
    requires forall k :: 0 <= k < |rows| ==> rows[k].geometry.Some?
    ensures DropMissingGeometry(rows) == rows
  {
    if rows != [] {
      DropNothingMissing(rows[1..]);
      assert rows == [rows[0]] + rows[1..];
    }
  }

  /** Number of rows that have a geometry. */
  function CountWithGeometry(rows: seq<Row>): nat
  {
    if rows == [] then 0 else (if rows[0].geometry.Some? then 1 else 0) + CountWithGeometry(rows[1..])
  }

  /** The filter keeps one row per row with geometry. */
  lemma {:induction false} DropLength(rows: seq<Row>)
    ensures |DropMissingGeometry(rows)| == CountWithGeometry(rows)
  {
    if rows != [] {
      DropLength(rows[1..]);
    }
  }

  /** The filtered table is empty exactly when no row had a geometry. */
  lemma {:induction false} DropEmpty(rows: seq<Row>)
    ensures DropMissingGeometry(rows) == [] <==> forall k :: 0 <= k < |rows| ==> rows[k].geometry.None?
  {
    if rows != [] {
      DropEmpty(rows[1..]);
      if DropMissingGeometry(rows) == [] {
        assert forall k :: 1 <= k < |rows| ==> rows[k] == rows[1..][k - 1];
      }
    }
  }

  /** Dropping rows keeps a table well formed. */
  lemma DropWellFormed(t: Table)
    requires WellFormed(t)
    ensures WellFormed(Table(t.columns, DropMissingGeometry(t.rows)))
  {
    var d := DropMissingGeometry(t.rows);
    forall k | 0 <= k < |d|
      ensures d[k].attrs.Keys == set c | c in t.columns
    {
      DropMembership(t.rows, d[k]);
    }
  }

  /** The GeoDataFrame object that `load_data` updates column by column. */
  class GeoFrame {
    var columns: seq<string>
    var rows: seq<Row>

    /** The table the frame currently holds. */
    function View(): Table
      reads this
    {
      Table(columns, rows)
    }

    constructor (t: Table)
      ensures View() == t
      ensures WellFormed(t) ==> Valid()
    {
      columns := t.columns;
      rows := t.rows;
    }

    /** The frame is rectangular with distinct column names. */
    ghost predicate Valid()
      reads this
    {
      WellFormed(View())
    }

    /** `gdf[name] = vals`, in place: a whole-column assignment. */
    method Assign(name: string, vals: seq<Value>)
      requires Valid() && |vals| == |rows|
      modifies this
      ensures Valid()
      ensures View() == SetColumn(old(View()), name, vals)
    {
      SetColumnWellFormed(View(), name, vals);
      if name !in columns {
        columns := columns + [name];
      }
      var prev := rows;
      rows := seq(|prev|, k requires 0 <= k < |prev| => prev[k].(attrs := prev[k].attrs[name := vals[k]]));
    }
  }
}
