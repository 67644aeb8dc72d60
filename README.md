# Radiation dose dashboard: a verified model of its data pipeline

`app.py` is a Streamlit page for monitoring patient radiation dose in
interventional radiology. It loads a table of procedures with four columns:

- `procedimiento`: the procedure label;
- `DAP_Gycm2`: the dose-area product;
- `Ka_r_mGy`: the reference air kerma;
- `tiempo_fluoro_min`: the fluoroscopy time.

The page then does five things in order:

1. It refuses to go on when a required column is absent.
2. It offers the distinct procedures and a fluoroscopy-time range as filters.
3. It filters the table, first by procedure and then by time.
4. For each dose column it shows a per-procedure summary table (`resumen`):
   count, mean, median, 75th percentile (the candidate diagnostic reference
   level), standard deviation, min and max.
5. For each dose column it draws two charts:
   - a box plot per procedure, ordered by median;
   - a mean ± standard deviation bar chart, ordered by mean.

This project models that pipeline as pure Dafny functions over exact reals
and proves what each step promises. The modules are:

- `Records`: the row type and the header check.
- `Labels`: Python's string order.
- `Selection`: boolean-mask selection.
- `Sorting`: sorting by a key.
- `Grouping`: the procedure list and the per-procedure groups.
- `Filtering`: the two masks and the slider's default range.
- `Statistics`: count, mean, median, linear-interpolation quantile, sample
  variance, min and max.
- `Summary`: `resumen`.
- `Charts`: the two chart orderings.
- `Dashboard`: the whole pass from header and rows to what the page shows.
- `Scenarios`: a worked example with two procedures.

The time slider starts at `(0.0, round(tmax, 1))`. Rounding the maximum to
one decimal can fall below it, so the default filter can drop the longest
procedures. The model keeps this behaviour. `Filtering.DefaultRangeCanDropMaximum`
shows a concrete table where it happens. `Filtering.DefaultRangeDropsOnlyNearMaximum`
shows that only rows within 0.05 minutes of the maximum can be lost this way.

## Model

| member | source | states |
|---|---|---|
| Records.MissingColumns | app.py:66-70 | the missing set is exactly the required columns absent from the header; it is empty if and only if all four are present |
| Records.ExtraColumnsIgnored | app.py:66-67 | adding columns to the header never makes a required column missing; adding non-required columns changes nothing |
| Grouping.Procedures | app.py:79 | the offered procedure list ascends strictly in Python string order and holds exactly the labels some row carries; missing labels are dropped |
| Grouping.GroupNonEmpty | app.py:97 | a procedure's group is non-empty exactly when some row carries that label |
| Grouping.Group | app.py:97 | a procedure's group is the order-preserving selection of exactly the rows carrying that label, each as often as in the table |
| Grouping.GroupValues | app.py:128 | a procedure's column of values holds, position by position, the column's value of each row of its group, and is non-empty exactly when the label occurs |
| Grouping.ProcedureGroupsPartition | app.py:97 | the groups of the offered procedures together hold every row with a non-missing label exactly once |
| Filtering.Filter | app.py:88-89 | the filtered table is an order-preserving subsequence of the table; it holds every row passing both masks as often as the table does, and nothing else |
| Filtering.FilterMembership | app.py:88-89 | a row is kept if and only if it is in the table, its procedure is chosen and its time lies in the closed range |
| Filtering.UnselectedExcluded | app.py:88 | rows whose procedure is missing or not chosen are dropped whatever the time range |
| Filtering.FilterIdempotent | app.py:88-89 | filtering the filtered table again with the same choices changes nothing |
| Filtering.MaskOrderIrrelevant | app.py:88-89 | applying the time mask before the procedure mask gives the same table |
| Filtering.Round1 | app.py:85-86 | `round(x, 1)` gives a multiple of 0.1 within 0.05 of `x` |
| Filtering.MaxTime | app.py:84 | the maximum time is attained by a row and bounds every row's time |
| Filtering.DefaultRange | app.py:84-86 | the default range exists exactly for a non-empty table; it starts at 0 and ends within 0.05 of the maximum time |
| Filtering.DefaultRangeDropsOnlyNearMaximum | app.py:84-89 | under the default range, a chosen row with non-negative time is lost only if its time is within 0.05 below the maximum |
| Filtering.DefaultRangeCanDropMaximum | app.py:85-89 | a one-row table at 12.34 minutes gets the default range (0, 12.3), and its only row is filtered out |
| Labels.Insert | app.py:79 | inserting a label into a strictly ascending list keeps it strictly ascending and adds exactly that label |
| Labels.LessTransitive | app.py:79 | Python string order is transitive |
| Labels.LessTotal | app.py:79 | two different strings are ordered one way or the other |
| Selection.Select | app.py:88 | boolean-mask selection keeps order and keeps exactly the rows the mask accepts, each with its multiplicity |
| Selection.SelectIdempotent | app.py:88-89 | applying the same mask twice equals applying it once |
| Selection.SelectCommutes | app.py:88-89 | two masks applied in either order give the same rows |
| Sorting.SortByKey | app.py:127 | sorting by a key gives a permutation of the input whose keys ascend |
| Statistics.Min | app.py:104 | the minimum is a value of the group and no value is below it |
| Statistics.Max | app.py:105 | the maximum is a value of the group and no value is above it |
| Statistics.Mean | app.py:100 | the mean lies between the minimum and the maximum |
| Statistics.Sort | app.py:101-102 | the values are rearranged into ascending order, as a permutation |
| Statistics.Quantile | app.py:102 | the linear-interpolation quantile lies between the two sorted values either side of position `q * (n - 1)`, and equals the last sorted value when that position is the last |
| Statistics.Median | app.py:101 | the median lies between the two middle sorted values, which coincide for an odd count |
| Statistics.QuantileBounds | app.py:102 | every linear-interpolation quantile lies between min and max |
| Statistics.QuantileMonotone | app.py:102 | a higher quantile level never gives a lower quantile |
| Statistics.MedianIsHalfQuantile | app.py:101-102 | the median (middle value, or mean of the two middle values) is the 0.5 quantile |
| Statistics.OrderStatisticsOrdered | app.py:101-105 | min ≤ median ≤ 75th percentile ≤ max |
| Statistics.Variance | app.py:103 | the `ddof=1` variance is missing exactly when there are fewer than two values, and is never negative |
| Statistics.ConstantGroup | app.py:100-103 | a group of equal values has that value as its mean and zero variance |
| Statistics.Describe | app.py:96-107 | a group's row: count is the group size; min ≤ median ≤ p75 ≤ max; min ≤ mean ≤ max; variance missing exactly when n < 2, otherwise ≥ 0; min and max are values of the group |
| Summary.Summarize | app.py:96-107 | one row per procedure present, labels strictly ascending, each row's `n` equal to its group size and its statistics those of exactly that group's values |
| Summary.SummaryCountsAllLabelledRows | app.py:97-99 | the `n` column adds up to the number of rows with a non-missing procedure |
| Summary.SummaryCountsAllRows | app.py:97-99 | when no procedure is missing, the `n` column adds up to the number of rows |
| Charts.BoxPlot | app.py:126-130 | the boxes are a rearrangement of the procedure list with medians ascending; each box holds exactly its procedure's non-empty values in table order |
| Charts.BarChart | app.py:137-142 | the bars are a rearrangement of the procedure list with means ascending; each bar's height, variance and count are its group's; the error bar is missing exactly for a group of one |
| Charts.BoxPlotAgreesWithSummary | app.py:126-128 | each box's median equals the `mediana` on its procedure's line of the summary table |
| Charts.BarChartAgreesWithSummary | app.py:137-142 | each bar's mean, variance and count equal the `media`, squared `std` and `n` on its procedure's line of the summary table |
| Dashboard.PanelOf | app.py:113-162 | one dose column's tab and charts, drawn from the filtered rows; the box plot and the bar chart show the same procedures as the summary table, each once |
| Dashboard.Panels | app.py:111-162 | there are DAP, Ka,r and time panels, in the order of the tabs |
| Dashboard.Show | app.py:88-162 | after the header check: the filtered rows are exactly the table under both masks, an order-preserving selection that all pass them; the panels are those of the filtered rows; each panel lists only chosen procedures, and its `n` column adds up to the filtered row count |
| Dashboard.Run | app.py:65-70 | the page stops exactly when a required column is absent, reporting exactly the absent required columns; otherwise it shows the filtered data |
| Scenarios.KeepAll | app.py:88-89 | rows A 1.0, B 3.0 and A 5.0 with both procedures chosen and range [0, 10] are all kept |
| Scenarios.OnlyA | app.py:88-89 | choosing only "A" drops the "B" row |
| Scenarios.LateOnly | app.py:88-89 | the range [4, 10] keeps only the row at 5.0 |
| Scenarios.TimeSummary | app.py:96-107 | the time summary of those rows: A has n 2, mean 3, median 3, p75 4, variance 8, range 1 to 5; B has n 1, every statistic 3, and no variance |

## Left out

- The Streamlit page itself is not modelled: layout, widgets, captions, tabs, downloads and `st.stop()`. `Dashboard.Run` returns the missing columns instead of stopping the page.
- Reading the CSV upload, the CSV export and the bundled sample data `ejemplo_df` are not modelled. They are I/O or random generation with a fixed seed. Rows are input to the model.
- Matplotlib drawing is not modelled: figure size, whiskers, fliers, grid and tick rotation. Only what each chart plots, and in which order, is modelled.
- `.round(2)` on the summary columns is not modelled. The statistics are exact reals.
- Statistics.Variance: states the sample variance (`ddof=1`), not the standard deviation pandas reports. The square root is left out. It does not change whether the value is missing, and it keeps sign and order.
- Floating point is not modelled. Values are exact reals, so `Round1` rounds the exact value and not its binary approximation.
- Missing (NaN) numbers in the dose columns are not modelled; only missing procedure labels are. pandas would skip NaN values in each statistic and drop NaN times in the time mask.
- A table without rows makes pandas' maximum NaN and the slider invalid. The model gives `Filtering.DefaultRange` the value `None` there and goes no further.
- The slider's `max_value=max(1.0, round(tmax, 1))` and `step=0.5` are not modelled. The chosen range is an input.
- Charts.BoxPlot: does not fix the order of procedures with equal medians. pandas' `sort_values` defaults to an unstable quicksort, so the source leaves that order open. The model promises only ascending medians and a rearrangement of the procedure list. The same holds for Charts.BarChart and equal means.
- Procedure labels are taken as text and ordered as Python orders strings. When every `procedimiento` cell is a number (procedure codes), pandas reads the column as numbers, and `sorted` and `groupby` then order them numerically (9 before 10), which the model does not capture.
- Statistics on a procedure whose filtered group is empty are never computed, because `groupby` only forms groups that have rows.
