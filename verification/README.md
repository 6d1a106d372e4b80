# Yellow-fever dashboard analytics, modelled in Dafny

`final1.py` is a Streamlit dashboard relating yellow-fever cases and deaths in the
four south-eastern Brazilian states (ES, MG, RJ, SP) in 2017 and 2018 to monthly
climate aggregates. Between its widget and chart calls sits a small, deterministic
data path. This project models that data path as pure functions over a sequence of
rows and proves what each step promises:

- **Selection** (`selection.dfy`): ticked year and state checkboxes become the lists
  the filter uses, in checkbox order. An empty choice falls back to "all".
- **Filter** (`filtering.dfy`, generic part in `sequences.dfy`): the table keeps
  exactly the rows whose year and state are both selected. The result is a
  subsequence of the input in the original order, with multiplicities kept.
- **Population column** (`population.dfy`): each filtered row gets `POPULACAO` from the
  hard-coded `(state, year)` table. The lookup is partial and a missing pair is an
  error, but on the dashboard's own selections it provably never fails.
- **Group-by** (`aggregation.dfy`): `groupby(...).agg(...)` with sums and means. There
  is one output row per key present, each holding its row count, and keys come out
  in pandas' sorted order. A mean is the group's sum divided by that count. Summed columns add up to the table total, and size-weighted means do
  too.
- **KPI boxes** (`kpi.dfy`): total cases, total deaths and the mortality rate. The rate
  is guarded for zero cases and lies in [0, 100] when each row has no more deaths
  than cases.
- **Min-max rescaling** (`normalization.dfy`): the effect of `MinMaxScaler`, computed
  over the reals against the filtered table's own minimum and maximum.
- **Month axis and summer bands** (`month_axis.dfy`): `MES_GLOBAL` re-indexing onto
  a 1-24 axis, its inverse (the tick labels), and the December/January/February
  bands.
- **Whole path** (`dashboard.dfy`): the normalised evolution table and `Render`, which
  runs every step for one state of the widgets.

Inputs the script reads from outside become parameters. The CSV becomes the
`data: seq<Record>` argument of `Render`. The checkboxes become `YearBoxes` and
`StateBoxes`, and the climate selectbox becomes `ClimateVar`.

Two behaviours of the script are worth stating:
- pandas' `groupby` sorts its keys by default, so groups come out sorted (states
  alphabetically, `(year, month)` pairs lexicographically), not in first-appearance
  order.
- `MinMaxScaler` rejects a table with no rows, so an empty filtered table is an
  error (`ScaleError.EmptySample`), not an empty result.

## Model

| member | source | states |
|---|---|---|
| Selection.SelectedYears | final1.py:123 | non-empty; contains a year iff its box is ticked, or every dashboard year when none is; strictly increasing (checkbox order); two years are selected exactly when both boxes agree, and then they are 2017 and 2018 |
| Selection.SelectedStates | final1.py:124-126 | non-empty; contains a state iff its box is ticked, or all four when none is; in checkbox order without repeats |
| Filtering.FilterRows | final1.py:129 | a row is kept iff its year and state are both selected; each kept row keeps its multiplicity; the result is a subsequence of the input (original order) |
| Filtering.FilterAppend | final1.py:129 | the filter is stable: filtering a concatenation filters each part and keeps the parts in order |
| Filtering.FilterIdempotent | final1.py:129 | re-applying the same selection changes nothing |
| Filtering.FilterNothingTickedKeepsAll | final1.py:123-129 | with no box ticked every row of 2017/2018 survives, in order: empty selection means all |
| Filtering.FilteredPairs | final1.py:123-129 | every filtered row's (state, year) pair lies in the product of the two (defaulted) selections |
| Population.PopulationDomain | final1.py:23-28 | the population table covers every state in exactly 2017 and 2018 |
| Population.Annotate | final1.py:131-133 | succeeds iff every row's (state, year) is in the table; then keeps rows and order and attaches the table's value; otherwise reports the first missing pair |
| Population.AnnotateFilteredSucceeds | final1.py:123-133 | on any checkbox state the lookup after the filter never fails |
| Aggregation.GroupBy | final1.py:251-254 | one output row per key present, positive sizes, values reduce exactly that key's rows; summed columns add up to the table total, size-weighted means too |
| Aggregation.SplitTotalConserves | final1.py:251-254 | splitting rows by a key and adding the per-key totals gives the ungrouped total |
| Aggregation.InsertKey | final1.py:283 | inserting a key keeps the key list chronological and adds exactly that key |
| Aggregation.YearMonthKeys | final1.py:283 | the distinct (year, month) keys present, oldest first |
| Aggregation.StateKeys | final1.py:184 | the distinct states present, in sorted state order |
| Aggregation.CasesByState | final1.py:184 | one slice per state present (no zero-filled state), in state order, holding that state's row count and case sum; slices add up to the table's cases |
| Aggregation.StateTotals | final1.py:251-254 | per state present, its row count and its cases and deaths sums; both columns add up to the table's totals |
| Aggregation.CasesByMonth | final1.py:283 | one row per (year, month) present, oldest first, holding that month's row count and case sum; rows add up to the table's cases |
| Aggregation.ClimateByMonth | final1.py:384-386 | one row per (year, month) present, oldest first, whose size is the number of rows in that month and whose value is the column's sum over them divided by that number; the size-weighted means add up to the column total |
| Kpi.MortalityRate | final1.py:214 | 0 when cases are not positive; otherwise rate times cases is 100 times deaths, and it lies in [0, 100] when 0 <= deaths <= cases |
| Kpi.PlausibleTotals | final1.py:212-213 | if every row has 0 <= deaths <= cases, the totals satisfy the same |
| Kpi.Summarize | final1.py:212-214 | totals are the column sums; rate is 0 without cases and a percentage in [0, 100] for plausible rows |
| Kpi.RateFromStateTotals | final1.py:212-214 | the rate recomputed from the per-state bar chart totals equals the KPI rate |
| Normalization.MinOf | final1.py:435 | the minimum occurs in the column and bounds it from below |
| Normalization.MaxOf | final1.py:435 | the maximum occurs in the column and bounds it from above |
| Normalization.Normalize | final1.py:428-435 | fails iff the table is empty; otherwise same rows in the same order, identity fields and unlisted columns untouched, and every listed column in [0, 1] with the table's minimum at 0, its maximum at 1, and a zero-range column all 0 |
| Normalization.ScaleFacts | final1.py:435 | a value within [min, max] scales into [0, 1]; min goes to 0, max to 1 when the range is positive |
| Normalization.NormalizedValue | final1.py:435 | with a positive range each value becomes (x - min) / (max - min) (`MinMax`), min and max of the filtered table itself |
| Normalization.NormalizedOrder | final1.py:435 | rescaling preserves and reflects the order of values in a non-constant column |
| Normalization.NormalizedBounds | final1.py:435 | a rescaled column has minimum 0 and maximum 1, or is constantly 0 |
| Normalization.NormalizeIdempotent | final1.py:428-435 | rescaling an already rescaled table leaves it unchanged |
| MonthAxis.GlobalMonth | final1.py:438-440 | unchanged month with one year; always within 1..24 for a calendar month |
| MonthAxis.GlobalMonthChronological | final1.py:438-440 | with two years the position order is the (year, month) order, so the re-indexing is injective |
| MonthAxis.TickLabelsInvertGlobalMonth | final1.py:511-514 | the 24 tick labels read back each row's year and month, and each position is the image of its labelled month |
| MonthAxis.SummerBands | final1.py:491-530 | the bands drawn lie within the axis (0.5..24.5 or 0.5..12.5) |
| MonthAxis.ShadedPositions | final1.py:491-530 | the bands shade exactly positions 1, 2, 12, 13, 14, 24 with two years and 1, 2, 12 with one |
| MonthAxis.BandsMarkSummer | final1.py:491-530 | a row's axis position is shaded iff its month is December, January or February |
| Dashboard.NormalizedEvolution | final1.py:443-447 | per (year, axis position) present, oldest first: the group's row count, the sums of rescaled cases and deaths, and the rescaled climate column's sum divided by the row count; all add back up to the table's totals |
| Dashboard.GlobalKeysIncrease | final1.py:438-440 | distinct (year, axis position) keys of 2017/2018 rows in chronological order have strictly increasing axis positions |
| Dashboard.EvolutionAxisOrder | final1.py:438-447 | on the two-year axis the groups of the normalised table run strictly left to right |
| Dashboard.Render | final1.py:123-530 | fails exactly when the selection matches no row; the table is the filtered rows with their populations; every chart table and the KPI equal their named functions; the rate is a percentage for plausible data; the bands are the fixed summer vrects for the year count, and they shade exactly the summer rows |
| Dashboard.ScenarioFilter | final1.py:129 | ticking 2017, ES and SP keeps both rows of a two-row table |
| Dashboard.ScenarioPie | final1.py:184 | that table's pie shows 10 cases for ES and 20 for SP |
| Dashboard.ScenarioRate | final1.py:212-214 | that table's mortality rate is 100 * 5 / 30 percent |

## Left out

- Page layout, checkboxes, the selectbox, HTML/CSS markdown and the KPI text formatting (final1.py:52-120, 216-239) are UI. The checkbox values and the climate option are parameters here.
- Plotly figure construction, hover templates, colour maps, the choropleth's "selected" column (final1.py:139-142) and the hover date label (final1.py:355-358) only produce rendering.
- The scatter plot (final1.py:344-353) draws the filtered table as it is and computes nothing.
- The GeoJSON download and the re-keying of its features (final1.py:31-49) are network I/O. Only the map consumes them.
- Logo and CSV loading (final1.py:12-20) are file I/O. The table is the `data` parameter.
- Floating point is modelled as exact reals: rounding, NaN, and pandas' NaN-skipping sums and means are not modelled. The scaler's arithmetic is modelled by its mathematical effect.
- Years are compared as integers. The script compares `ANO_IS.astype(str)` with the strings "2017" and "2018", which agrees for integer years.
- The precomputed `Mortalidade` column is carried as an opaque field. Only the scatter plot uses it, as a colour.
- Population.Annotate: an empty filtered table is annotated as an empty table. How pandas' row-wise `apply` behaves on an empty frame is not modelled. `Render` still fails on such a table, at the rescaling step.
- Dashboard.Render: it returns either every view or an error. The script would have drawn the charts above the first failing line before stopping.
- Clustering, cyclical month encoding, z-score standardisation and the humidity column do not occur in this script, so they are not part of this model.
