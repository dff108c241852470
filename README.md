# Tempe Tree-Vulnerability Dashboard — verified model of its data core

The dashboard in `app.py` loads city tree records, which hold a point geometry and attribute
columns. From them it computes:

- which column holds the trunk diameter (DBH) and which holds the replacement value, by
  case-insensitive substring matching on column names, with zero-filled fallback columns;
- a risk label per tree, from `pd.cut` on the diameter with bins `[0, 10, 20, 999]` and
  labels Low / Medium / High;
- the summary metrics over the trees that have a geometry: tree count, mean diameter, total
  replacement value, share of high-risk trees, and average carbon storage (from a carbon
  column when one exists, otherwise mean diameter × 5);
- the north–south trend: mean diameter per latitude band, each band coloured green when its
  mean did not fall from the previous band and red otherwise, and one line segment per pair
  of neighbouring bands.

The model has these modules:

- `Wrappers`: `Option`.
- `Text`: ASCII lower-casing and substring search.
- `Risk`: `pd.cut` and the risk labels.
- `Stats`: pandas' null-skipping `sum` and `mean`.
- `Frame`: the attribute table, with column assignment and `dropna(subset=["geometry"])`. The
  class `GeoFrame` is the in-place data frame that `load_data` mutates.
- `Columns`: column inference.
- `Loader`: `load_data`, both as a function and as the method `LoadData` over a `GeoFrame`.
- `Metrics`: the summary card, with a worked three-tree example.
- `Trend`: grouping, colouring and the segment loop.

Floating-point values are modelled as `real`. A pandas NaN is modelled as a missing value
(`Null` in a cell, `None` in an `Option`).

Two consequences of the code are easy to misread:

- `pd.cut` intervals are right-closed (`right=True` by default). So, unlike half-open
  `[0, 10)` bins, a diameter of exactly 10 is Low, exactly 20 is Medium, and 0 gets no label.
- The zero-filled fallback diameter column lies outside `(0, 999]`, so every tree then gets
  *no* risk label rather than Low, and the share of high-risk trees is 0.

## Model

| member | source | states |
|---|---|---|
| Risk.Cut | app.py:105-109 | `pd.cut` on one value: a missing value stays missing, and a label i is given only when bins[i] < x <= bins[i+1] |
| Risk.CutIndex | app.py:105-109 | a found interval index i satisfies bins[i] < x <= bins[i+1] (right-closed) |
| Risk.CutIndexComplete | app.py:105-109 | with increasing bins, a value gets an interval iff bins[0] < x <= bins[last] |
| Risk.CutIndexUnique | app.py:105-109 | with increasing bins, any interval containing x is the one pd.cut reports |
| Risk.Classify | app.py:105-109 | Low iff 0 < d <= 10, Medium iff 10 < d <= 20, High iff 20 < d <= 999; no label iff d is missing, d <= 0 or d > 999 |
| Risk.ClassifyMonotone | app.py:107-108 | a larger diameter never gets a lower risk level |
| Risk.BoundariesAreRightClosed | app.py:107-108 | 10 is Low, 20 is Medium, 999 is High |
| Risk.ZeroHasNoLabel | app.py:95-109 | the zero fallback diameter gets no label |
| Stats.Mean | app.py:124 | the mean is present iff at least one value is present |
| Stats.SumMissingIsZero | app.py:125 | `Series.sum()` (`SumPresent`) of a column with no present value is 0, not missing |
| Stats.CountNonZero | app.py:124 | the number of present values is positive iff some value is present |
| Stats.SumBounds | app.py:125 | the null-skipping sum of values in [lo, hi] lies in [count·lo, count·hi] |
| Stats.MeanBounds | app.py:124 | the mean of values in [lo, hi] lies in [lo, hi] |
| Stats.ConstantColumn | app.py:95-102 | a column holding c in every row has all its values counted, sum \|xs\|·c and mean c |
| Frame.SetColumn | app.py:93-109 | `gdf[name] = vals`: the name is a column of the result and the row count is kept |
| Frame.SetColumnWrites | app.py:93 | after assigning a column, every row holds the assigned value in that column |
| Frame.SetColumnKeeps | app.py:93-109 | assigning a column leaves every other column unchanged |
| Frame.SetColumnNames | app.py:95 | an existing column keeps its position and the column count; a new one is appended once, at the end |
| Frame.SetColumnWellFormed | app.py:93-109 | assigning a column keeps the column names distinct and every row's keys equal to the columns |
| Frame.GeoFrame.Assign | app.py:93 | in-place column assignment: the new state is the old table with that column set, and the frame stays valid |
| Frame.DropMissingGeometry | app.py:111 | no more rows than before, and every kept row has a geometry |
| Frame.DropMembership | app.py:111 | a row is kept iff it was there and has a geometry |
| Frame.DropDistributes | app.py:111 | dropping distributes over concatenation, so row order is kept |
| Frame.DropNothingMissing | app.py:111 | with no missing geometry, nothing is dropped |
| Frame.DropLength | app.py:111 | the number of rows kept equals the number with a geometry |
| Frame.DropEmpty | app.py:111 | the result is empty iff no row has a geometry |
| Frame.DropWellFormed | app.py:111 | dropping rows keeps the table well formed |
| Columns.LowerAll | app.py:86 | `[c.lower() for c in gdf.columns]`: same length, each entry the lower-cased column |
| Columns.ColMap | app.py:87 | every value of `dict(zip(cols, gdf.columns))` is a column whose lower-cased name is its key |
| Columns.ChooseMapped | app.py:89-90 | a chosen column is one of the table's columns and its lower-cased name matches |
| Columns.FirstColumn | app.py:128-130 | a carbon column found is one of the table's columns and its lower-cased name contains "carbon" and "stor" |
| Columns.FirstIndexSpec | app.py:89-90 | `next(..., None)` is None iff nothing matches, and otherwise is the first match |
| Columns.ColMapDomain | app.py:87 | the key set of `dict(zip(cols, gdf.columns))` is exactly the set of lower-cased names |
| Columns.ColMapLast | app.py:87 | a key maps to the last column with that lower-cased spelling |
| Columns.ChooseMappedSome | app.py:86-90 | the chosen column is the last same-spelled column of the first matching lower-cased name |
| Columns.ChooseMappedExplained | app.py:86-90 | every chosen column is the last same-spelled column of the first column whose lower-cased name matches |
| Columns.ChooseMappedNone | app.py:89-90 | no column is chosen iff no lower-cased name matches |
| Columns.FirstColumnSpec | app.py:128-130 | the carbon column is the first column whose lower-cased name contains "carbon" and "stor", and there is none iff no name does |
| Columns.MatchedNameNonEmpty | app.py:92-131 | a chosen diameter, replacement or carbon column has a non-empty name, so the truthiness tests `if dbh_col:`, `if repl_col:` and `if carbon_col:` mean "found" |
| Columns.InfersMixedCaseNames | app.py:86-90 | "DBH_in" is the diameter column and "Replace_Val" the replacement column |
| Columns.OneColumnForBothRoles | app.py:89-90 | a single column "Diam_Value" is chosen for both roles |
| Columns.DictionaryKeepsLaterSpelling | app.py:87-89 | of "DBH" and "dbh" the dictionary returns the later, "dbh" |
| Columns.CarbonKeepsFirstSpelling | app.py:128-130 | the carbon search has no dictionary, so of two same-spelled columns it returns the first |
| Loader.Load | app.py:82-112 | `load_data`: no more rows than read, every row has a geometry, and "Risk_Level" is a column |
| Loader.Enrich | app.py:86-109 | `load_data` before the geometry filter: the row count is kept and "Risk_Level" is a column |
| Loader.Numericize | app.py:92-102 | one found-or-fallback step: the returned name is a column, the row count is kept, and every cell of that column is a number or missing |
| Loader.Coerce | app.py:93 | `pd.to_numeric(column, errors="coerce")`: same length, `ToNumeric` cell by cell |
| Loader.RiskLabels | app.py:105-109 | the `pd.cut` column: same length, and a cell is High iff its diameter is a number in (20, 999] |
| Loader.ToNumeric | app.py:93 | `to_numeric(errors="coerce")` yields a number or missing, and keeps a number unchanged |
| Loader.CoerceIdempotent | app.py:93 | coercing an already coerced column changes nothing |
| Loader.DiameterFallbackMatches | app.py:89-96 | the fallback name "DBH__in_" would itself be recognised as a diameter column |
| Loader.ReplacementFallbackMatches | app.py:90-102 | the fallback name "Replacement_Value" would itself be recognised as a replacement column |
| Loader.RiskColumnMatchesNothing | app.py:89-105 | "Risk_Level" is recognised as neither a diameter nor a replacement column |
| Loader.GeometryNameMatchesNothing | app.py:89-130 | the name "geometry" matches none of the three column searches |
| Loader.FallbackIsFresh | app.py:94-102 | a fallback column is added only when no column is found, and a column of that name did not exist before |
| Loader.ChosenNotRiskColumn | app.py:89-105 | the diameter and replacement columns are never "Risk_Level", so the risk assignment does not overwrite them |
| Loader.NumericizeEffect | app.py:92-102 | a found column is coerced in place and a missing one is added as zeros; every other column is unchanged |
| Loader.EnrichShape | app.py:86-109 | the original columns stay a prefix in their order; the diameter, replacement and "Risk_Level" columns are present and no other column is added; row count and geometries are unchanged |
| Loader.EnrichColumnSet | app.py:92-109 | a name is a column of the enriched table iff it was a file column, dbh_col, repl_col or "Risk_Level" |
| Loader.EnrichColumnOrigin | app.py:92-109 | every enriched column is a file column, "DBH__in_", "Replacement_Value" or "Risk_Level" |
| Loader.AddedNamesNotCarbon | app.py:128-130 | none of the three names load_data may add contains "carbon", so the carbon search cannot pick one |
| Loader.EnrichRiskAgrees | app.py:105-109 | every row's "Risk_Level" is the risk label of its (coerced) diameter |
| Loader.EnrichKeepsOthers | app.py:92-109 | a column other than the diameter, replacement and risk columns is unchanged |
| Loader.ChosenDiameterCoerced | app.py:92-93 | a found diameter column is returned as dbh_col and replaced by its numeric coercion |
| Loader.ChosenReplacementCoerced | app.py:98-99 | a found replacement column is returned as repl_col and replaced by its numeric coercion |
| Loader.FallbackDiameter | app.py:94-109 | with no diameter column, "DBH__in_" is fresh, zero in every row, returned as dbh_col, and every risk label is missing |
| Loader.FallbackReplacement | app.py:100-102 | with no replacement column, "Replacement_Value" is returned, and it is zero in every row |
| Loader.LoadRows | app.py:105-112 | as many rows are kept as had a geometry, each kept row has a geometry and the risk label of its diameter, and the table stays well formed |
| Loader.LoadKeepsLocated | app.py:111 | when every row has a geometry, the filter keeps the enriched table unchanged |
| Loader.EnrichWellFormed | app.py:92-109 | enrichment keeps a well-formed table well formed |
| Loader.LoadData | app.py:82-112 | the method mutates the frame to the enriched table and returns a fresh frame equal to the functional `Load` |
| Metrics.CountLabel | app.py:126 | `len(gdf[gdf["Risk_Level"] == "High"])`: at most the row count |
| Metrics.AverageCarbon | app.py:128-134 | with a carbon column, present iff some row has a numeric carbon value; without one, present iff some row has a numeric diameter |
| Metrics.CountLabelMultiplicity | app.py:126 | the number of rows with a label is that label's multiplicity in the column |
| Metrics.CountLabelAll | app.py:126 | the number of High rows equals the row count iff every row is High |
| Metrics.CountLabelNone | app.py:126 | the number of High rows is zero iff no row is High |
| Metrics.HighRiskPercent | app.py:126 | the share lies in [0, 100], is 100 iff every tree is High and 0 iff none is |
| Metrics.Summarize | app.py:119-134 | a summary is shown iff the table has rows; it counts every row and its share lies in [0, 100] |
| Metrics.TotalValue | app.py:125 | `gdf[repl_col].sum()`: 0 when no cell of the column is numeric |
| Metrics.CarbonFallback | app.py:128-134 | with no carbon column, average carbon is five times the mean diameter (missing if that mean is missing) |
| Metrics.AverageDiameterBounds | app.py:124 | the average diameter lies within the bounds of the diameters present |
| Metrics.SummaryShownIffSomeGeometry | app.py:111-119 | the summary is shown iff some raw record has a geometry |
| Metrics.SummaryCarbonFallback | app.py:128-134 | for a table with no carbon-like column, a shown summary carries five times its mean diameter, or no carbon figure |
| Metrics.LoadedColumnsNotCarbon | app.py:92-111 | loading a file with no carbon-like column gives a table with none |
| Metrics.LoadedCarbonFallback | app.py:128-134 | for a file with no carbon-like column, the shown summary of the loaded table uses the diameter-based carbon figure |
| Metrics.FallbackDiameterMetrics | app.py:94-126 | with no diameter column, a shown summary has average diameter 0 and high-risk share 0 |
| Metrics.ZeroDiameterSummary | app.py:119-126 | a table whose diameters are all 0 and whose rows are all unlabelled shows mean 0 and a High share of 0 |
| Metrics.ThreeTreeLoad | app.py:86-111 | three located trees of 5, 15 and 25 in. get Low, Medium and High, with a zero replacement fallback |
| Metrics.ThreeTreeExample | app.py:119-134 | the three trees summarise as 3 trees, mean 15, value 0, 33.3…% high risk, carbon 75 |
| Trend.BandPoints | app.py:181 | the (LatBand, diameter) points: at most one per row |
| Trend.GroupMeans | app.py:182 | `groupby("LatBand")[dbh_col].mean()`: group keys strictly increasing |
| Trend.Delta | app.py:183 | `diff()`: present iff i >= 1 and both neighbouring means are present, and then previous mean + delta = current mean |
| Trend.Colors | app.py:184 | `np.where(delta >= 0, "green", "red")`: one colour per group |
| Trend.BandPointsAllRows | app.py:181-182 | every located row contributes exactly one (band, diameter) point, in row order |
| Trend.KeysSpec | app.py:182 | the band keys are strictly increasing and are exactly the bands that occur |
| Trend.ValuesAtSpec | app.py:182 | a diameter is in a band's group iff some point has that band and diameter |
| Trend.ValuesAtCount | app.py:182 | a diameter occurs in a band's group exactly as many times as its (band, diameter) point occurs |
| Trend.ValuesAtAppend | app.py:182 | collecting a band's diameters distributes over concatenation, so the row order is kept |
| Trend.GroupKeys | app.py:182 | the group keys are strictly increasing, every band that occurs is a group key, and every group key is a band that occurs |
| Trend.GroupMeanMissing | app.py:182 | a group's mean is missing iff every diameter in that band is missing |
| Trend.TrendGroups | app.py:181-182 | `trend_df`: `GroupMeans` of the table's (band, diameter) points; keys strictly increasing, each the band of some point |
| Trend.TrendGroupsFromRows | app.py:181-182 | every group key of `trend_df` is the band of some located row |
| Trend.BandPointOrigin | app.py:181 | every (band, diameter) point comes from a located row and carries its band |
| Trend.EveryRowInSomeGroup | app.py:181-182 | every located row's band is the key of some group |
| Trend.ColorRule | app.py:183-184 | group i is green iff i >= 1 and both means exist and the mean did not fall; the first group is red |
| Trend.AllGreenMeansMonotone | app.py:183-184 | if every segment is green, the group means are non-decreasing northward |
| Trend.MonotoneMeansAllGreen | app.py:183-184 | non-decreasing present means make every segment green |
| Trend.Segments | app.py:195-202 | max(n-1, 0) segments; segment i joins groups i and i+1 and has group i+1's colour, green iff the mean rose or held |

## Left out

- Streamlit page layout, CSS, cards, captions, the map and every Plotly figure are presentation only: app.py:1-80, 136-180, 186-194, the `add_scatter` styling arguments at 199-201, and 204-255. The trend computation at 181-184 and the segment loop at 195-202 are modelled.
- Reading the shapefile and the CRS reprojection (app.py:83) are I/O. A model `Table` is the loaded frame.
- `@st.cache_data` is left out, since caching does not change the values.
- `gdf.sample(...)` for the map is random and feeds only the plot.
- The parsing rules of `pd.to_numeric` on strings are a parameter `parse`. The model fixes only that a number stays a number and an unparsable value becomes missing.
- Rounding with `round(..., 1)`/`round(..., 2)` in the metrics and `geometry.y.round(4)` for the latitude band are left out. The metrics are exact reals, and the band is a parameter `band: Point -> real`.
- Floating-point arithmetic is modelled as exact real arithmetic, so NaN is modelled as a missing value.
- Lower-casing is modelled for ASCII letters only; Python's `str.lower` also folds other Unicode letters.
- Duplicate column names in a data frame are excluded by `Frame.WellFormed`. Each row maps names to values. The geometry is held apart from the attribute columns.
- A carbon column with non-numeric text would make pandas' `mean` raise. The model reads such cells as missing.
- The `LatBand`, `delta` and `color` column assignments (app.py:181-184) are modelled as functions of the table (`TrendGroups`, `Delta`, `Colors`), not as mutations of the frame, because nothing else reads those columns.
- The pandas categorical dtype of `Risk_Level` is modelled as a value that is a label or missing. Its unused category list is not modelled.
- Metrics.Summarize: its own contract states only visibility, tree count and the share bounds. The other fields are given by the lemmas beside it and the functions it calls: TotalValue, CarbonFallback, LoadedCarbonFallback, AverageDiameterBounds, FallbackDiameterMetrics and ThreeTreeExample.
