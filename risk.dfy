/**
 * Risk classification: `pd.cut(d, bins=[0, 10, 20, 999], labels=[Low, Medium, High])`
 * with pandas' default right-closed intervals (b[i], b[i+1]].
 */
module Risk {
  import opened Wrappers

  datatype Risk = Low | Medium | High

  /** The breakpoints and labels the dashboard passes to pd.cut. */
  const Bins: seq<real> := [0.0, 10.0, 20.0, 999.0]
  const Labels: seq<Risk> := [Low, Medium, High]

  /** pd.cut rejects bins that are not increasing. */
  ghost predicate StrictlyIncreasing(b: seq<real>)
  {
    forall i, j :: 0 <= i < j < |b| ==> b[i] < b[j]
  }

  /** Position of a risk level in the label order. */
  function Rank(r: Risk): nat
  {
    match r
    case Low => 0
    case Medium => 1
    case High => 2
  }

  /**
   * The interval pd.cut puts `x` in when `right=True`: the index `i` with
   * bins[i] < x <= bins[i + 1], searched from the left.
   */
  function CutIndex(x: real, bins: seq<real>): (r: Option<nat>)
    ensures r.Some? ==> r.value + 1 < |bins| && bins[r.value] < x <= bins[r.value + 1]
    decreases |bins|
  {
    if |bins| < 2 then None
    else if bins[0] < x <= bins[1] then Some(0)
    else
      match CutIndex(x, bins[1..])
      case None => None
      case Some(i) => Some(i + 1)
  }

  /** pd.cut on one value: a missing value stays missing, a value in no interval gets no label. */
  function Cut(x: Option<real>, bins: seq<real>, labels: seq<Risk>): (r: Option<Risk>)
    requires |labels| + 1 == |bins|
    ensures x.None? ==> r.None?
    ensures r.Some? ==> exists i :: 0 <= i < |labels| && r.value == labels[i] && bins[i] < x.value <= bins[i + 1]
  {
    match x
    case None => None
    case Some(d) =>
      match CutIndex(d, bins)
      case None => None
      case Some(i) => Some(labels[i])
  }

  /** Every value inside (bins[0], bins[last]] falls in some interval, and nothing outside does. */
  lemma {:induction false} CutIndexComplete(x: real, bins: seq<real>)
    requires StrictlyIncreasing(bins)
    ensures CutIndex(x, bins).Some? <==> |bins| >= 2 && bins[0] < x <= bins[|bins| - 1]
    decreases |bins|
  {
    if |bins| >= 2 && !(bins[0] < x <= bins[1]) {
      CutIndexComplete(x, bins[1..]);
      assert bins[1..][0] == bins[1];
      assert bins[1..][|bins[1..]| - 1] == bins[|bins| - 1];
      if bins[0] < x <= bins[|bins| - 1] {
        assert bins[1] < x;
      }
    }
  }

  /** With increasing bins the interval is unique: any interval containing `x` is the one found. */
  lemma CutIndexUnique(x: real, bins: seq<real>, i: nat)
    requires StrictlyIncreasing(bins)
    requires i + 1 < |bins| && bins[i] < x <= bins[i + 1]
    ensures CutIndex(x, bins) == Some(i)
  {
    CutIndexComplete(x, bins);
  }

  /** The dashboard's risk label for a (possibly missing) diameter. */
  function Classify(d: Option<real>): (r: Option<Risk>)
    ensures r == Some(Low) <==> d.Some? && 0.0 < d.value <= 10.0
    ensures r == Some(Medium) <==> d.Some? && 10.0 < d.value <= 20.0
    ensures r == Some(High) <==> d.Some? && 20.0 < d.value <= 999.0
    ensures r.None? <==> d.None? || d.value <= 0.0 || 999.0 < d.value
  {
    assert Bins[1..] == [10.0, 20.0, 999.0];
    assert Bins[1..][1..] == [20.0, 999.0];
    assert Bins[1..][1..][1..] == [999.0];
    Cut(d, Bins, Labels)
  }

  /** A larger diameter never gets a lower label. */
  lemma ClassifyMonotone(d1: real, d2: real)
    requires d1 <= d2
    requires Classify(Some(d1)).Some? && Classify(Some(d2)).Some?
    ensures Rank(Classify(Some(d1)).value) <= Rank(Classify(Some(d2)).value)
  {
  }

  /** The boundaries are right-closed: exactly 10 is Low and exactly 20 is Medium. */
  lemma BoundariesAreRightClosed()
    ensures Classify(Some(10.0)) == Some(Low)
    ensures Classify(Some(20.0)) == Some(Medium)
    ensures Classify(Some(999.0)) == Some(High)
  {
  }

  /** A zero diameter lies outside (0, 999] and gets no label. */
  lemma ZeroHasNoLabel()
    ensures Classify(Some(0.0)).None?
  {
  }
}
