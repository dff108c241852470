/**
 * Column inference in `load_data`: which attribute column holds the trunk
 * diameter, which the replacement value, and (in the summary block) which
 * the carbon storage, found by case-insensitive substring matching.
 */
module Columns {
  import opened Wrappers
  import opened Text

  /** A lower-cased name that looks like a diameter column. */
  predicate IsDiameterName(lc: string)
  {
    Contains(lc, "dbh") || Contains(lc, "diam")
  }

  /** A lower-cased name that looks like a replacement-value column. */
  predicate IsReplacementName(lc: string)
  {
    Contains(lc, "replace") || Contains(lc, "value")
  }

  /** A lower-cased name that looks like a carbon-storage column. */
  predicate IsCarbonName(lc: string)
  {
    Contains(lc, "carbon") && Contains(lc, "stor")
  }

  /** `[c.lower() for c in gdf.columns]`. */
  function LowerAll(cols: seq<string>): (r: seq<string>)
    ensures |r| == |cols|
    ensures forall i :: 0 <= i < |cols| ==> r[i] == Lower(cols[i])
  {
    if cols == [] then [] else [Lower(cols[0])] + LowerAll(cols[1..])
  }

  /**
   * `dict(zip(lowered, gdf.columns))`: pairs are inserted in column order, so
   * for a spelling shared by several columns the last of them wins.
   */
  function ColMap(cols: seq<string>): (m: map<string, string>)
    ensures forall key :: key in m ==> m[key] in cols && Lower(m[key]) == key
    decreases |cols|
  {
    if cols == [] then map[]
    else ColMap(cols[..|cols| - 1])[Lower(cols[|cols| - 1]) := cols[|cols| - 1]]
  }

  /** `next(i for i, c in enumerate(names) if p(c))`: the first index whose name satisfies `p`. */
  function FirstIndex(names: seq<string>, p: string -> bool): Option<nat>
  {
    if names == [] then None
    else if p(names[0]) then Some(0)
    else
      match FirstIndex(names[1..], p)
      case None => None
      case Some(i) => Some(i + 1)
  }

  /** `next((col_map[c] for c in cols if p(c)), None)` with `cols` the lower-cased names (app.py lines 89-90). */
  function ChooseMapped(cols: seq<string>, p: string -> bool): (r: Option<string>)
    ensures r.Some? ==> r.value in cols && p(Lower(r.value))
  {
    var lowered := LowerAll(cols);
    match FirstIndex(lowered, p)
    case None => None
    case Some(i) =>
      FirstIndexSpec(lowered, p);
      ColMapKeys(cols, i);
      Some(ColMap(cols)[lowered[i]])
  }

  /** `next((col for col in gdf.columns if p(col.lower())), None)`: no dictionary, so the first spelling wins. */
  function FirstColumn(cols: seq<string>, p: string -> bool): (r: Option<string>)
    ensures r.Some? ==> r.value in cols && p(Lower(r.value))
  {
    var lowered := LowerAll(cols);
    match FirstIndex(lowered, p)
    case None => None
    case Some(i) =>
      FirstIndexSpec(lowered, p);
      Some(cols[i])
  }

  /** `i` is the first position, in column order, whose lower-cased name satisfies `p`. */
  ghost predicate IsFirstMatch(cols: seq<string>, p: string -> bool, i: int)
  {
    && 0 <= i < |cols|
    && p(Lower(cols[i]))
    && forall j :: 0 <= j < i ==> !p(Lower(cols[j]))
  }

  /** `k` is the last position whose name lower-cases to `key`. */
  ghost predicate IsLastSpelling(cols: seq<string>, key: string, k: int)
  {
    && 0 <= k < |cols|
    && Lower(cols[k]) == key
    && forall j :: k < j < |cols| ==> Lower(cols[j]) != key
  }

  /** FirstIndex finds the first satisfying name, and finds nothing only when no name satisfies `p`. */
  lemma {:induction false} FirstIndexSpec(names: seq<string>, p: string -> bool)
    ensures FirstIndex(names, p).None? <==> forall j :: 0 <= j < |names| ==> !p(names[j])
    ensures FirstIndex(names, p).Some? ==>
      var i := FirstIndex(names, p).value;
      i < |names| && p(names[i]) && forall j :: 0 <= j < i ==> !p(names[j])
  {
    if names != [] && !p(names[0]) {
      FirstIndexSpec(names[1..], p);
      assert forall j :: 1 <= j < |names| ==> names[j] == names[1..][j - 1];
    }
  }

  /** A spelling is a key of the dictionary exactly when some column has it. */
  lemma {:induction false} ColMapDomain(cols: seq<string>, key: string)
    ensures key in ColMap(cols) <==> exists j :: 0 <= j < |cols| && Lower(cols[j]) == key
    decreases |cols|
  {
    if cols != [] {
      var n := |cols| - 1;
      var front := cols[..n];
      ColMapDomain(front, key);
      if key in ColMap(front) {
        var j :| 0 <= j < |front| && Lower(front[j]) == key;
        assert Lower(cols[j]) == key;
      }
      if exists j :: 0 <= j < |cols| && Lower(cols[j]) == key {
        var j :| 0 <= j < |cols| && Lower(cols[j]) == key;
        if j < n {
          assert Lower(front[j]) == key;
        }
      }
    }
  }

  /** A spelling maps to the last column that has it: later columns overwrite earlier ones. */
  lemma {:induction false} ColMapLast(cols: seq<string>, key: string, k: nat)
    requires IsLastSpelling(cols, key, k)
    ensures key in ColMap(cols) && ColMap(cols)[key] == cols[k]
    decreases |cols|
  {
    var n := |cols| - 1;
    if k < n {
      var front := cols[..n];
      assert Lower(cols[n]) != key;
      assert IsLastSpelling(front, key, k);
      ColMapLast(front, key, k);
    }
  }

  /** The spelling of every column is a key of the dictionary. */
  lemma ColMapKeys(cols: seq<string>, i: nat)
    requires i < |cols|
    ensures Lower(cols[i]) in ColMap(cols)
  {
    ColMapDomain(cols, Lower(cols[i]));
  }

  /** Every spelling that some column has has a last column with that spelling. */
  lemma {:induction false} LastSpellingExists(cols: seq<string>, i: nat)
    requires i < |cols|
    ensures exists k :: i <= k && IsLastSpelling(cols, Lower(cols[i]), k)
    decreases |cols| - i
  {
    var key := Lower(cols[i]);
    if forall j :: i < j < |cols| ==> Lower(cols[j]) != key {
      assert IsLastSpelling(cols, key, i);
    } else {
      var j :| i < j < |cols| && Lower(cols[j]) == key;
      LastSpellingExists(cols, j);
    }
  }

  /**
   * Column inference picks the first column, in column order, whose lower-cased
   * name satisfies `p`, and returns the LAST column spelled like it.
   */
  lemma ChooseMappedSome(cols: seq<string>, p: string -> bool, i: int, k: int)
    requires IsFirstMatch(cols, p, i) && IsLastSpelling(cols, Lower(cols[i]), k)
    ensures ChooseMapped(cols, p) == Some(cols[k])
  {
    FirstIndexSpec(LowerAll(cols), p);
    ColMapLast(cols, Lower(cols[i]), k);
  }

  /**
   * Whatever inference returns is explained by the rule above: some first
   * matching position and the last column spelled like it.
   */
  lemma ChooseMappedExplained(cols: seq<string>, p: string -> bool)
    requires ChooseMapped(cols, p).Some?
    ensures exists i, k :: IsFirstMatch(cols, p, i) && IsLastSpelling(cols, Lower(cols[i]), k) && ChooseMapped(cols, p) == Some(cols[k])
  {
    var lowered := LowerAll(cols);
    FirstIndexSpec(lowered, p);
    var i := FirstIndex(lowered, p).value;
    assert IsFirstMatch(cols, p, i);
    LastSpellingExists(cols, i);
    var k :| i <= k && IsLastSpelling(cols, Lower(cols[i]), k);
    ChooseMappedSome(cols, p, i, k);
  }

  /** Inference finds nothing exactly when no lower-cased name satisfies `p`. */
  lemma ChooseMappedNone(cols: seq<string>, p: string -> bool)
    ensures ChooseMapped(cols, p).None? <==> forall j :: 0 <= j < |cols| ==> !p(Lower(cols[j]))
  {
    FirstIndexSpec(LowerAll(cols), p);
  }

  /** The carbon lookup returns the first matching column itself, with no dictionary in between. */
  lemma FirstColumnSpec(cols: seq<string>, p: string -> bool)
    ensures FirstColumn(cols, p).None? <==> forall j :: 0 <= j < |cols| ==> !p(Lower(cols[j]))
    ensures forall i :: IsFirstMatch(cols, p, i) ==> FirstColumn(cols, p) == Some(cols[i])
  {
    FirstIndexSpec(LowerAll(cols), p);
  }

  /**
   * A match is never the empty string, so the string-truthiness tests
   * `if dbh_col:`, `if repl_col:` and `if carbon_col:` (app.py lines 92, 98
   * and 131) are the same test as "a column was found".
   */
  lemma MatchedNameNonEmpty(cols: seq<string>)
    ensures ChooseMapped(cols, IsDiameterName).Some? ==> ChooseMapped(cols, IsDiameterName).value != ""
    ensures ChooseMapped(cols, IsReplacementName).Some? ==> ChooseMapped(cols, IsReplacementName).value != ""
    ensures FirstColumn(cols, IsCarbonName).Some? ==> FirstColumn(cols, IsCarbonName).value != ""
  {
    if FirstColumn(cols, IsCarbonName).Some? {
      ContainsLength(Lower(FirstColumn(cols, IsCarbonName).value), "carbon");
    }
    if ChooseMapped(cols, IsDiameterName).Some? {
      var c := ChooseMapped(cols, IsDiameterName).value;
      if Contains(Lower(c), "dbh") { ContainsLength(Lower(c), "dbh"); } else { ContainsLength(Lower(c), "diam"); }
    }
    if ChooseMapped(cols, IsReplacementName).Some? {
      var c := ChooseMapped(cols, IsReplacementName).value;
      if Contains(Lower(c), "replace") { ContainsLength(Lower(c), "replace"); } else { ContainsLength(Lower(c), "value"); }
    }
  }

  /** Case and position do not matter: "DBH_in" is the diameter column and "Replace_Val" the value column. */
  lemma InfersMixedCaseNames()
    ensures ChooseMapped(["DBH_in", "Replace_Val"], IsDiameterName) == Some("DBH_in")
    ensures ChooseMapped(["DBH_in", "Replace_Val"], IsReplacementName) == Some("Replace_Val")
  {
    var cols := ["DBH_in", "Replace_Val"];
    assert Lower(cols[0]) == "dbh_in";
    assert Lower(cols[1]) == "replace_val";
    ContainsAt("dbh_in", "dbh", 0);
    ContainsAt("replace_val", "replace", 0);
    NoOccurrence("dbh_in", "replace");
    NoOccurrence("dbh_in", "value");
    ChooseMappedSome(cols, IsDiameterName, 0, 0);
    ChooseMappedSome(cols, IsReplacementName, 1, 1);
  }

  /** The two lookups are independent, so one column can serve as both. */
  lemma OneColumnForBothRoles()
    ensures ChooseMapped(["Diam_Value"], IsDiameterName) == Some("Diam_Value")
    ensures ChooseMapped(["Diam_Value"], IsReplacementName) == Some("Diam_Value")
  {
    var cols := ["Diam_Value"];
    assert Lower(cols[0]) == "diam_value";
    ContainsAt("diam_value", "diam", 0);
    ContainsAt("diam_value", "value", 5);
    ChooseMappedSome(cols, IsDiameterName, 0, 0);
    ChooseMappedSome(cols, IsReplacementName, 0, 0);
  }

  /** Through the dictionary, the later of two same-spelled columns is the one returned. */
  lemma DictionaryKeepsLaterSpelling()
    ensures ChooseMapped(["DBH", "dbh"], IsDiameterName) == Some("dbh")
  {
    var cols := ["DBH", "dbh"];
    assert Lower(cols[0]) == "dbh" && Lower(cols[1]) == "dbh";
    ContainsAt("dbh", "dbh", 0);
    ChooseMappedSome(cols, IsDiameterName, 0, 1);
  }

  /** The carbon lookup has no dictionary, so the earlier of two same-spelled columns is returned. */
  lemma CarbonKeepsFirstSpelling()
    ensures FirstColumn(["Carbon_Stor", "CARBON_STOR"], IsCarbonName) == Some("Carbon_Stor")
  {
    var cols := ["Carbon_Stor", "CARBON_STOR"];
    assert Lower(cols[0]) == "carbon_stor";
    ContainsAt("carbon_stor", "carbon", 0);
    ContainsAt("carbon_stor", "stor", 7);
    FirstColumnSpec(cols, IsCarbonName);
    assert IsFirstMatch(cols, IsCarbonName, 0);
  }
}
