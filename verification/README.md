# Decision-support pipeline for additive manufacturing KPIs — a Dafny model

The tool is a form for additive-manufacturing supply-chain decisions. The user
picks KPIs from a fixed taxonomy of six categories and one integration level
("Fully AM", "Hybrid AM and TM", "Fully TM"). The tool then:

1. keeps the dataset rows whose `Integration_Level` equals the chosen level;
2. checks that every chosen KPI is a column of the dataset;
3. draws 1000 rows with replacement and adds a Gaussian noise vector to each row's values for the chosen KPIs;
4. for each category with a non-empty selection, averages that category's column means.

This project models that pipeline as pure data and functions:

- `Taxonomy`: the fixed category → KPI map, with a proof that no KPI belongs to two categories.
- `KpiSelection`: the per-category selection and its flattening into the chosen-KPI list.
- `Dataset`: cells, rows and the table; the integration-level filter; the missing-KPI validator.
- `Stats`: column, row and block sums and means over `real`, with mean-of-means = grand mean.
- `Sampler`: the 1000-step sampling loop. The random choices are inputs: row positions (`picks`) and noise vectors (`noise`).
- `Aggregation`: the per-category summary, in declaration order.
- `Pipeline`: one run. Its `Outcome` is one of four variants:
  - `MissingKpiError(names)`: the chosen KPIs that are not dataset columns;
  - `SelectKpiPrompt`: no KPI was chosen;
  - `Results(matrix, summary)`: the simulated matrix and the per-category summary;
  - `Failed(fault)`: the error caught at the outermost level.

Failures the program catches as a generic error are named by `Fault`:

- `LevelColumnMissing`: the dataset has no `Integration_Level` column.
- `EmptySample`: a row was to be drawn from an empty filtered set.
- `NonNumericCell(kpi)`: a drawn row holds text under a chosen KPI.

The code takes `.mean().mean()` of the category's columns, which is the mean
of the per-column means. The model follows the code. It also proves that this
equals the mean of the row means and the grand mean of the block
(`Stats.MeanOfColumnMeansIsGrandMean`, `Stats.MeanOfRowMeansIsGrandMean`).

## Model

| member | source | states |
|---|---|---|
| Taxonomy.CategoriesValid | dss7.py:66-73 | The six categories have three KPIs each and distinct names. No category repeats a KPI. No KPI belongs to two categories. |
| KpiSelection.Flatten | dss7.py:81 | Every KPI selected in any category appears in the chosen list. |
| KpiSelection.FlattenOnlySelected | dss7.py:81 | Every chosen KPI was selected in some category (the converse of `Flatten`'s contract). |
| KpiSelection.FlattenAppend | dss7.py:81 | Flattening distributes over concatenation of per-category selections. |
| KpiSelection.FlattenSplit | dss7.py:75-81 | Category i's selection sits in the chosen list after the categories declared before it and before those declared after it. |
| KpiSelection.FlattenNoDuplicates | dss7.py:66-81 | If the taxonomy's KPI lists are pairwise disjoint, a well-formed selection never chooses the same KPI twice. |
| KpiSelection.ChosenNoDuplicates | dss7.py:66-81 | The fixed taxonomy's selections never repeat a KPI. |
| Dataset.FilterRows | dss7.py:97 | Every kept row's `Integration_Level` cell is exactly the text of the chosen level. The filter never adds rows. |
| Dataset.FilterRowsCount | dss7.py:97 | Each row carrying the chosen level is kept exactly as often as it occurs in the input. No other row is kept. |
| Dataset.Filter | dss7.py:97 | Filtering keeps the column set. It keeps well-formedness. A row is in the result iff it is in the table and carries the chosen level. |
| Dataset.FilterRowsAppend | dss7.py:97 | The filter keeps the rows' original relative order (it distributes over concatenation). |
| Dataset.FilterRowsIdempotent | dss7.py:97 | Filtering twice by the same level gives the same rows as filtering once. |
| Dataset.MissingKpis | dss7.py:103 | A KPI is reported missing iff it is chosen and not a dataset column. The list is never longer than the chosen list. |
| Dataset.MissingAppend | dss7.py:103 | The missing list follows the selection order. |
| Dataset.MissingAfterFilter | dss7.py:97-104 | Validating against the filtered table gives the same result as against the whole table. The list is empty iff every chosen KPI is a column. |
| Stats.SumSwap | dss7.py:124 | Summing a block column by column gives the same total as summing it row by row. |
| Stats.MeanOfColumnMeansIsGrandMean | dss7.py:124 | The mean of a block's column means equals the mean of all its cells. |
| Stats.MeanOfRowMeansIsGrandMean | dss7.py:124 | The mean of a block's row means equals the mean of all its cells. |
| Stats.GrandMeanBounds | dss7.py:124 | If every cell of a block lies in [lo, hi], so does its mean. |
| Sampler.Simulate | dss7.py:109-118 | With no rows, the run fails with `EmptySample`. With rows, it succeeds iff every drawn row holds numbers under every chosen KPI. The result has 1000 rows and one column per chosen KPI, in chosen order. Cell (i, j) is the value of KPI j in the row drawn at step i plus noise i, j. A failure names a chosen KPI that some drawn row holds as text. |
| Aggregation.Columns | dss7.py:124 | The columns picked for a category are, position by position, the matrix columns labelled with that category's KPIs. |
| Aggregation.NonEmpty | dss7.py:122-123 | The category positions kept are exactly those with a non-empty selection, in increasing declaration order. |
| Aggregation.AggregateFromMatches | dss7.py:121-124 | From any category on, entry a of the summary belongs to the a-th non-empty category and holds the grand mean of its columns. |
| Aggregation.Aggregate | dss7.py:121-124 | The summary has one entry per category with a non-empty selection, in declaration order. Each entry carries the category's name and the grand mean of the block formed by that category's columns. |
| Aggregation.AggregateKeys | dss7.py:121-124 | With distinct category names, a category is named in the summary iff its selection is non-empty. No category is missing and none is zero-filled. |
| Aggregation.AggregateNoDuplicates | dss7.py:121-124 | With distinct category names, no category appears twice in the summary. |
| Pipeline.Run | dss7.py:95-159 | With no `Integration_Level` column, the run fails with `LevelColumnMissing`. Otherwise a non-empty missing list gives that error and no simulation. Otherwise an empty selection gives the prompt. Otherwise an empty filtered set gives `EmptySample`. Otherwise results appear iff every drawn value is numeric. Results hold the sampled matrix and the summary of it. When a drawn row holds text under a chosen KPI, the run fails with `NonNumericCell` naming that KPI. |
| Pipeline.CategoryMeanWithinNoise | dss7.py:109-124 | If every row drawn from holds v under each of a category's KPIs and all noise lies in [-e, e], the category's summary value lies in [v - e, v + e]. |

## Left out

- Streamlit widgets, titles and debug output (dss7.py:20-62, 77-78, 85-90, 100) are UI only. Selections and the integration level are plain input values.
- The sector, objective and decision menus (dss7.py:24-62) are static menu data that never feed the pipeline.
- Reading the Excel file and stopping when it is missing (dss7.py:13-18) is file I/O. The table is an input.
- The noise distribution is not modelled: Gaussian, mean 0, standard deviation 0.05 (dss7.py:114). Neither is `DataFrame.sample`'s uniform choice (dss7.py:113). Both are randomness in foreign libraries. `Sampler.Fits` states only what the random source guarantees: 1000 picks inside the filtered rows, and noise vectors as long as the KPI list.
- The bar chart, the correlation heatmap and `DataFrame.corr()` (dss7.py:126-154) are charting and floating-point library numerics.
- Values are `real`. IEEE rounding and NaN cells are not modelled.
- Exception texts are not modelled. The program prints `str(e)` of whatever pandas or numpy raised. The model returns a `Fault` naming the cause instead.
- Sampler.Simulate: names the first text-valued chosen KPI of the first failing draw. numpy's exception does not name a column.
- Pipeline.Run: accepts any string as the integration level. The radio button offers only "Fully AM", "Hybrid AM and TM" and "Fully TM" (dss7.py:85). The filter is plain string equality either way.
- Determinism for a fixed seed holds by construction: all random choices are explicit inputs.
