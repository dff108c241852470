/**
 * pandas' null-skipping aggregations over a numeric column:
 * `Series.sum()` (missing values skipped, 0 for nothing) and
 * `Series.mean()` (missing values skipped, NaN when nothing is left).
 */
module Stats {
  import opened Wrappers

  /** Number of non-missing values. */
  function CountPresent(xs: seq<Option<real>>): (n: nat)
    ensures n <= |xs|
  {
    if xs == [] then 0 else (if xs[0].Some? then 1 else 0) + CountPresent(xs[1..])
  }

  /** `Series.sum()`: the sum of the non-missing values, 0 for none. */
  function SumPresent(xs: seq<Option<real>>): real
  {
    if xs == [] then 0.0 else (if xs[0].Some? then xs[0].value else 0.0) + SumPresent(xs[1..])
  }

  /** `Series.mean()`: the mean of the non-missing values, missing if there are none. */
  function Mean(xs: seq<Option<real>>): (r: Option<real>)
    ensures r.Some? <==> exists i :: 0 <= i < |xs| && xs[i].Some?
  {
    CountNonZero(xs);
    if CountPresent(xs) == 0 then None
    else Some(SumPresent(xs) / CountPresent(xs) as real)
  }

  /** The count is zero exactly when no value is present. */
  lemma {:induction false} CountNonZero(xs: seq<Option<real>>)
    ensures CountPresent(xs) > 0 <==> exists i :: 0 <= i < |xs| && xs[i].Some?
  {
    if xs != [] {
      CountNonZero(xs[1..]);
      if xs[0].None? && exists i :: 0 <= i < |xs| && xs[i].Some? {
        var i :| 0 <= i < |xs| && xs[i].Some?;
        assert xs[1..][i - 1].Some?;
      }
      if exists i :: 0 <= i < |xs[1..]| && xs[1..][i].Some? {
        var i :| 0 <= i < |xs[1..]| && xs[1..][i].Some?;
        assert xs[i + 1].Some?;
      }
    }
  }

  /** `Series.sum()` of a column with no value present is 0, not missing. */
  lemma {:induction false} SumMissingIsZero(xs: seq<Option<real>>)
    requires CountPresent(xs) == 0
    ensures SumPresent(xs) == 0.0
  {
    if xs != [] {
      SumMissingIsZero(xs[1..]);
    }
  }

  /** The sum of values lying in [lo, hi] lies between count * lo and count * hi. */
  lemma SumBounds(xs: seq<Option<real>>, lo: real, hi: real)
    requires forall i :: 0 <= i < |xs| && xs[i].Some? ==> lo <= xs[i].value <= hi
    ensures CountPresent(xs) as real * lo <= SumPresent(xs) <= CountPresent(xs) as real * hi
  {
    SumAtLeast(xs, lo);
    SumAtMost(xs, hi);
  }

  /** The sum of values no smaller than lo is at least count * lo. */
  lemma {:induction false} SumAtLeast(xs: seq<Option<real>>, lo: real)
    requires forall i :: 0 <= i < |xs| && xs[i].Some? ==> lo <= xs[i].value
    ensures CountPresent(xs) as real * lo <= SumPresent(xs)
  {
    if xs != [] {
      var rest := xs[1..];
      SumAtLeast(rest, lo);
      var n := CountPresent(rest) as real;
      if xs[0].Some? {
        assert CountPresent(xs) as real * lo == n * lo + lo;
      }
    }
  }

  /** The sum of values no larger than hi is at most count * hi. */
  lemma {:induction false} SumAtMost(xs: seq<Option<real>>, hi: real)
    requires forall i :: 0 <= i < |xs| && xs[i].Some? ==> xs[i].value <= hi
    ensures SumPresent(xs) <= CountPresent(xs) as real * hi
  {
    if xs != [] {
      var rest := xs[1..];
      SumAtMost(rest, hi);
      var n := CountPresent(rest) as real;
      if xs[0].Some? {
        assert CountPresent(xs) as real * hi == n * hi + hi;
      }
    }
  }

  /** Dividing a total between n * lo and n * hi by n > 0 lands in [lo, hi]. */
  lemma QuotientBounds(s: real, n: real, lo: real, hi: real)
    requires n > 0.0 && n * lo <= s <= n * hi
    ensures lo <= s / n <= hi
  {
    assert (s / n) * n == s;
  }

  /** A mean lies between the smallest and the largest value averaged. */
  lemma MeanBounds(xs: seq<Option<real>>, lo: real, hi: real)
    requires forall i :: 0 <= i < |xs| && xs[i].Some? ==> lo <= xs[i].value <= hi
    requires Mean(xs).Some?
    ensures lo <= Mean(xs).value <= hi
  {
    SumBounds(xs, lo, hi);
    QuotientBounds(SumPresent(xs), CountPresent(xs) as real, lo, hi);
  }

  /** A column holding the same value in every row has that value as its sum per row and as its mean. */
  lemma {:induction false} ConstantColumn(xs: seq<Option<real>>, c: real)
    requires forall i :: 0 <= i < |xs| ==> xs[i] == Some(c)
    ensures CountPresent(xs) == |xs|
    ensures SumPresent(xs) == |xs| as real * c
    ensures |xs| > 0 ==> Mean(xs) == Some(c)
  {
    if xs != [] {
      ConstantColumn(xs[1..], c);
      var n := |xs| as real;
      assert SumPresent(xs) / n == c by {
        assert SumPresent(xs) == n * c;
      }
    }
  }
}
