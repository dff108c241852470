/**
 * The north-south trend chart: mean diameter per latitude band in sorted
 * band order, the difference from the previous band, the green/red colour
 * rule, and the loop that draws one coloured segment per pair of bands.
 */
module Trend {
  import opened Wrappers
  import opened Frame
  import opened Stats

  /** One row of `groupby("LatBand")[dbh_col].mean()`. */
  datatype Group = Group(key: real, mean: Option<real>)

  datatype Color = Green | Red

  /** One `add_scatter` call: the two band keys, the two means and the line colour. */
  datatype Segment = Segment(x0: real, x1: real, y0: Option<real>, y1: Option<real>, color: Color)

  /**
   * The (LatBand, diameter) pairs of the table, in row order. `band` stands for
   * `geometry.y.round(4)`; a row without geometry has a NaN band, which
   * groupby leaves out.
   */
  function BandPoints(t: Table, dbhCol: string, band: Point -> real): (pts: seq<(real, Option<real>)>)
    ensures |pts| <= |t.rows|
  {
    BandPointsOf(t.rows, dbhCol, band)
  }

  function BandPointsOf(rows: seq<Row>, dbhCol: string, band: Point -> real): (pts: seq<(real, Option<real>)>)
    ensures |pts| <= |rows|
  {
    if rows == [] then []
    else
      var rest := BandPointsOf(rows[1..], dbhCol, band);
      match rows[0].geometry
      case Some(p) => [(band(p), AsNumber(Cell(rows[0], dbhCol)))] + rest
      case None => rest
  }

  /** Strictly increasing keys: sorted, and each key once. */
  ghost predicate Increasing(ks: seq<real>)
  {
    forall i, j :: 0 <= i < j < |ks| ==> ks[i] < ks[j]
  }

  /** Adds a key to a sorted key list unless it is already there. */
  function Insert(ks: seq<real>, k: real): seq<real>
  {
    if ks == [] then [k]
    else if k < ks[0] then [k] + ks
    else if k == ks[0] then ks
    else [ks[0]] + Insert(ks[1..], k)
  }

  /** Insertion keeps the key list sorted and adds exactly the new key. */
  lemma {:induction false} InsertSpec(ks: seq<real>, k: real)
    requires Increasing(ks)
    ensures Increasing(Insert(ks, k))
    ensures forall x :: x in Insert(ks, k) <==> x in ks || x == k
  {
    if ks != [] && k > ks[0] {
      InsertSpec(ks[1..], k);
      var r := Insert(ks[1..], k);
      assert forall x :: x in ks <==> x == ks[0] || x in ks[1..];
      forall i, j | 0 <= i < j < |[ks[0]] + r|
        ensures ([ks[0]] + r)[i] < ([ks[0]] + r)[j]
      {
        if i == 0 {
          assert ([ks[0]] + r)[j] in r;
        }
      }
    }
  }

  /** The sorted, distinct band keys that groupby produces. */
  function Keys(pts: seq<(real, Option<real>)>): seq<real>
  {
    if pts == [] then [] else Insert(Keys(pts[1..]), pts[0].0)
  }

  /** The band keys are sorted, distinct, and are exactly the keys that occur. */
  lemma {:induction false} KeysSpec(pts: seq<(real, Option<real>)>)
    ensures Increasing(Keys(pts))
    ensures forall x :: x in Keys(pts) <==> exists j :: 0 <= j < |pts| && pts[j].0 == x
  {
    if pts != [] {
      KeysSpec(pts[1..]);
      InsertSpec(Keys(pts[1..]), pts[0].0);
      forall x | x in Keys(pts)
        ensures exists j :: 0 <= j < |pts| && pts[j].0 == x
      {
        if x != pts[0].0 {
          var j :| 0 <= j < |pts[1..]| && pts[1..][j].0 == x;
          assert pts[j + 1].0 == x;
        }
      }
      forall x | exists j :: 0 <= j < |pts| && pts[j].0 == x
        ensures x in Keys(pts)
      {
        var j :| 0 <= j < |pts| && pts[j].0 == x;
        if j > 0 {
          assert pts[1..][j - 1].0 == x;
        }
      }
    }
  }

  /** The diameters of the rows in one band, in row order. */
  function ValuesAt(pts: seq<(real, Option<real>)>, k: real): seq<Option<real>>
  {
    if pts == [] then []
    else (if pts[0].0 == k then [pts[0].1] else []) + ValuesAt(pts[1..], k)
  }

  /** A band holds exactly the diameters of the rows with that key. */
  lemma {:induction false} ValuesAtSpec(pts: seq<(real, Option<real>)>, k: real, v: Option<real>)
    ensures v in ValuesAt(pts, k) <==> exists j :: 0 <= j < |pts| && pts[j] == (k, v)
  {
    if pts != [] {
      ValuesAtSpec(pts[1..], k, v);
      if exists j :: 0 <= j < |pts| && pts[j] == (k, v) {
        var j :| 0 <= j < |pts| && pts[j] == (k, v);
        if j > 0 {
          assert pts[1..][j - 1] == (k, v);
        }
      }
      if v in ValuesAt(pts[1..], k) {
        var j :| 0 <= j < |pts[1..]| && pts[1..][j] == (k, v);
        assert pts[j + 1] == (k, v);
      }
    }
  }

  /** Collecting a band's diameters distributes over concatenation, so row order is kept. */
  lemma {:induction false} ValuesAtAppend(a: seq<(real, Option<real>)>, b: seq<(real, Option<real>)>, k: real)
    ensures ValuesAt(a + b, k) == ValuesAt(a, k) + ValuesAt(b, k)
  {
    if a != [] {
      assert (a + b)[0] == a[0] && (a + b)[1..] == a[1..] + b;
      ValuesAtAppend(a[1..], b, k);
    } else {
      assert a + b == b;
    }
  }

  /** A diameter occurs in a band's group exactly as often as its (band, diameter) point occurs. */
  lemma {:induction false} ValuesAtCount(pts: seq<(real, Option<real>)>, k: real, v: Option<real>)
    ensures multiset(ValuesAt(pts, k))[v] == multiset(pts)[(k, v)]
  {
    if pts != [] {
      var head := if pts[0].0 == k then [pts[0].1] else [];
      var rest := ValuesAt(pts[1..], k);
      ValuesAtCount(pts[1..], k, v);
      assert ValuesAt(pts, k) == head + rest;
      assert multiset(ValuesAt(pts, k))[v] == multiset(head)[v] + multiset(rest)[v];
      assert pts == [pts[0]] + pts[1..];
      assert multiset(pts)[(k, v)] == multiset{pts[0]}[(k, v)] + multiset(pts[1..])[(k, v)];
      assert multiset(head)[v] == multiset{pts[0]}[(k, v)];
    }
  }

  /** `gdf.groupby("LatBand")[dbh_col].mean().reset_index()`. */
  function GroupMeans(pts: seq<(real, Option<real>)>): (g: seq<Group>)
    ensures forall i, j :: 0 <= i < j < |g| ==> g[i].key < g[j].key
  {
    var ks := Keys(pts);
    KeysSpec(pts);
    seq(|ks|, i requires 0 <= i < |ks| => Group(ks[i], Mean(ValuesAt(pts, ks[i]))))
  }

  /** The grouped table lists each band that occurs once, in increasing band order. */
  lemma GroupKeys(pts: seq<(real, Option<real>)>)
    ensures var g := GroupMeans(pts);
      && (forall i, j :: 0 <= i < j < |g| ==> g[i].key < g[j].key)
      && (forall j :: 0 <= j < |pts| ==> exists i :: 0 <= i < |g| && g[i].key == pts[j].0)
      && (forall i :: 0 <= i < |g| ==> exists j :: 0 <= j < |pts| && pts[j].0 == g[i].key)
  {
    var g := GroupMeans(pts);
    var ks := Keys(pts);
    KeysSpec(pts);
    forall j | 0 <= j < |pts|
      ensures exists i :: 0 <= i < |g| && g[i].key == pts[j].0
    {
      assert exists jj :: 0 <= jj < |pts| && pts[jj].0 == pts[j].0;
      assert pts[j].0 in ks;
      var i :| 0 <= i < |ks| && ks[i] == pts[j].0;
      assert g[i].key == pts[j].0;
    }
    forall i | 0 <= i < |g|
      ensures exists j :: 0 <= j < |pts| && pts[j].0 == g[i].key
    {
      assert ks[i] in ks;
    }
  }

  /** A band's mean is missing exactly when every diameter in that band is missing. */
  lemma GroupMeanMissing(pts: seq<(real, Option<real>)>, i: nat)
    requires i < |GroupMeans(pts)|
    ensures var g := GroupMeans(pts);
      g[i].mean.None? <==> forall j :: 0 <= j < |pts| && pts[j].0 == g[i].key ==> pts[j].1.None?
  {
    var k := Keys(pts)[i];
    var vs := ValuesAt(pts, k);
    assert GroupMeans(pts)[i] == Group(k, Mean(vs));
    if Mean(vs).None? {
      forall j | 0 <= j < |pts| && pts[j].0 == k
        ensures pts[j].1.None?
      {
        ValuesAtSpec(pts, k, pts[j].1);
        var m :| 0 <= m < |vs| && vs[m] == pts[j].1;
      }
    } else {
      var m :| 0 <= m < |vs| && vs[m].Some?;
      ValuesAtSpec(pts, k, vs[m]);
    }
  }

  /** `trend_df[dbh_col].diff()`: missing for the first group and wherever a mean is missing. */
  function Delta(g: seq<Group>, i: nat): (d: Option<real>)
    requires i < |g|
    ensures d.Some? <==> 1 <= i && g[i].mean.Some? && g[i - 1].mean.Some?
    ensures d.Some? ==> g[i - 1].mean.value + d.value == g[i].mean.value
  {
    if i == 0 then None
    else if g[i].mean.Some? && g[i - 1].mean.Some? then Some(g[i].mean.value - g[i - 1].mean.value)
    else None
  }

  /** `np.where(trend_df["delta"] >= 0, "green", "red")`: a missing delta compares false, so it is red. */
  function Colors(g: seq<Group>): (c: seq<Color>)
    ensures |c| == |g|
  {
    seq(|g|, i requires 0 <= i < |g| => if Delta(g, i).Some? && Delta(g, i).value >= 0.0 then Green else Red)
  }

  /** The mean of band `i` is present and at least the mean of band `i - 1`. */
  ghost predicate Rises(g: seq<Group>, i: int)
    requires 1 <= i < |g|
  {
    g[i].mean.Some? && g[i - 1].mean.Some? && g[i - 1].mean.value <= g[i].mean.value
  }

  /** A group is green exactly when its mean is not below the previous one; the first group is red. */
  lemma ColorRule(g: seq<Group>, i: nat)
    requires i < |g|
    ensures Colors(g)[i] == Green <==> 1 <= i && Rises(g, i)
    ensures i == 0 ==> Colors(g)[i] == Red
  {
  }

  /**
   * Every drawn segment is green exactly when the band means are all present
   * and never decrease from south to north: then any band's mean is at least
   * that of every band south of it.
   */
  lemma {:induction false} AllGreenMeansMonotone(g: seq<Group>, i: nat, j: nat)
    requires forall k :: 1 <= k < |g| ==> Colors(g)[k] == Green
    requires i <= j < |g|
    ensures g[i].mean.Some? || |g| == 1
    ensures g[j].mean.Some? || |g| == 1
    ensures |g| > 1 ==> g[i].mean.value <= g[j].mean.value
    decreases j - i
  {
    if |g| > 1 {
      if i == j {
        var k := if i == 0 then 1 else i;
        ColorRule(g, k);
      } else {
        ColorRule(g, j);
        AllGreenMeansMonotone(g, i, j - 1);
      }
    }
  }

  /** Conversely, present and non-decreasing means colour every group after the first green. */
  lemma MonotoneMeansAllGreen(g: seq<Group>)
    requires forall i :: 0 <= i < |g| ==> g[i].mean.Some?
    requires forall i, j :: 0 <= i < j < |g| ==> g[i].mean.value <= g[j].mean.value
    ensures forall k :: 1 <= k < |g| ==> Colors(g)[k] == Green
  {
    forall k | 1 <= k < |g|
      ensures Colors(g)[k] == Green
    {
      ColorRule(g, k);
    }
  }

  /**
   * The recolouring loop `for i in range(1, len(trend_df))`: one segment per
   * pair of neighbouring bands, `len - 1` in all, segment `i` joining bands
   * `i` and `i + 1` and coloured like band `i + 1`, so green exactly when the
   * mean rises from band `i` to band `i + 1`.
   */
  method Segments(g: seq<Group>) returns (segs: seq<Segment>)
    ensures |segs| == if |g| == 0 then 0 else |g| - 1
    ensures forall i :: 0 <= i < |segs| ==>
      segs[i] == Segment(g[i].key, g[i + 1].key, g[i].mean, g[i + 1].mean, Colors(g)[i + 1])
    ensures forall i :: 0 <= i < |segs| ==> (segs[i].color == Green <==> Rises(g, i + 1))
  {
    var color := Colors(g);
    segs := [];
    var i := 1;
    while i < |g|
      invariant 1 <= i <= if |g| == 0 then 1 else |g|
      invariant |segs| == i - 1
      invariant forall k :: 0 <= k < i - 1 ==>
        segs[k] == Segment(g[k].key, g[k + 1].key, g[k].mean, g[k + 1].mean, color[k + 1])
    {
      segs := segs + [Segment(g[i - 1].key, g[i].key, g[i - 1].mean, g[i].mean, color[i])];
      i := i + 1;
    }
    forall k | 0 <= k < |segs|
      ensures segs[k].color == Green <==> Rises(g, k + 1)
    {
      ColorRule(g, k + 1);
    }
  }

  /** The band groups of a loaded table: the input to the trend chart. */
  function TrendGroups(t: Table, dbhCol: string, band: Point -> real): (g: seq<Group>)
    ensures forall i, j :: 0 <= i < j < |g| ==> g[i].key < g[j].key
    ensures forall i :: 0 <= i < |g| ==>
      exists j :: 0 <= j < |BandPoints(t, dbhCol, band)| && BandPoints(t, dbhCol, band)[j].0 == g[i].key
  {
    GroupKeys(BandPoints(t, dbhCol, band));
    GroupMeans(BandPoints(t, dbhCol, band))
  }

  /** A point comes from a located row and carries that row's band. */
  lemma {:induction false} BandPointOrigin(rows: seq<Row>, dbhCol: string, band: Point -> real, j: nat)
    requires j < |BandPointsOf(rows, dbhCol, band)|
    ensures exists k :: 0 <= k < |rows| && rows[k].geometry.Some? && BandPointsOf(rows, dbhCol, band)[j].0 == band(rows[k].geometry.value)
  {
    var pts := BandPointsOf(rows, dbhCol, band);
    var tail := rows[1..];
    var rest := BandPointsOf(tail, dbhCol, band);
    if rows[0].geometry.Some? && j == 0 {
      assert pts[0].0 == band(rows[0].geometry.value);
    } else {
      var r := if rows[0].geometry.Some? then j - 1 else j;
      assert r < |rest| && pts[j] == rest[r];
      BandPointOrigin(tail, dbhCol, band, r);
      var k :| 0 <= k < |tail| && tail[k].geometry.Some? && rest[r].0 == band(tail[k].geometry.value);
      assert rows[k + 1] == tail[k];
    }
  }

  /** Every group key is the band of some located row. */
  lemma TrendGroupsFromRows(t: Table, dbhCol: string, band: Point -> real)
    ensures var g := TrendGroups(t, dbhCol, band);
      forall i :: 0 <= i < |g| ==>
        exists k :: 0 <= k < |t.rows| && t.rows[k].geometry.Some? && g[i].key == band(t.rows[k].geometry.value)
  {
    var pts := BandPoints(t, dbhCol, band);
    var g := TrendGroups(t, dbhCol, band);
    assert pts == BandPointsOf(t.rows, dbhCol, band);
    forall i | 0 <= i < |g|
      ensures exists k :: 0 <= k < |t.rows| && t.rows[k].geometry.Some? && g[i].key == band(t.rows[k].geometry.value)
    {
      var j :| 0 <= j < |pts| && pts[j].0 == g[i].key;
      BandPointOrigin(t.rows, dbhCol, band, j);
    }
  }

  /** When every row has a geometry, which `load_data` guarantees, each row gives one point, in row order. */
  lemma {:induction false} BandPointsAllRows(rows: seq<Row>, dbhCol: string, band: Point -> real)
    requires forall k :: 0 <= k < |rows| ==> rows[k].geometry.Some?
    ensures |BandPointsOf(rows, dbhCol, band)| == |rows|
    ensures forall k :: 0 <= k < |rows| ==>
      BandPointsOf(rows, dbhCol, band)[k] == (band(rows[k].geometry.value), AsNumber(Cell(rows[k], dbhCol)))
  {
    if rows != [] {
      BandPointsAllRows(rows[1..], dbhCol, band);
    }
  }

  /** Every tree of a fully located table lands in the group of its band. */
  lemma EveryRowInSomeGroup(t: Table, dbhCol: string, band: Point -> real, k: nat)
    requires forall j :: 0 <= j < |t.rows| ==> t.rows[j].geometry.Some?
    requires k < |t.rows|
    ensures exists i :: (0 <= i < |TrendGroups(t, dbhCol, band)| && TrendGroups(t, dbhCol, band)[i].key == band(t.rows[k].geometry.value))
  {
    var pts := BandPoints(t, dbhCol, band);
    var g := GroupMeans(pts);
    BandPointsAllRows(t.rows, dbhCol, band);
    GroupKeys(pts);
    assert pts[k].0 == band(t.rows[k].geometry.value);
    var i :| 0 <= i < |g| && g[i].key == pts[k].0;
    assert TrendGroups(t, dbhCol, band) == g;
  }
}
