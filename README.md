# MetaGenChord data pipeline, in Dafny

MetaGenChord draws a chord diagram of microbial-abundance datasets. Its
`app.js` loads a CSV of samples. It then:

- picks the first ten distinct `dataset_name` values;
- keeps the rows of those datasets;
- builds one label per dataset from its first row;
- sums every taxon column (`k__…`) per dataset;
- builds a square "shared abundance" matrix (`buildMatrix`) for `d3.chord()`;
- wires hover handlers that dim unrelated ribbons and show a metadata tooltip;
- places the labels around the ring.

This project models that pipeline and proves its properties. The drawing is not modelled.

Modules, one per stage (one file each):

- `Rows` (rows.dfy): a CSV row as a value (`Record`: header keys in order plus cell text). It also holds the JavaScript coercions the code relies on: `row[key]` may be `undefined`, `v || "Unknown …"`, and `parseFloat(v) || 0`. `parseFloat` is a parameter `parse: string -> Option<real>`, where `None` stands for NaN.
- `Selection` (selection.dfy): `Array.from(new Set(names)).slice(0, 10)`, the row filter and `find`.
- `Labels` (labels.dfy): the label template with its placeholders, `String.prototype.split` with its inverse `Join`.
- `Layout` (layout.dfy): the mid-angle transform, the flip and anchor rule, and one line per label segment.
- `Aggregation` (aggregation.dfy): the taxon columns and the per-dataset sums. The `forEach` that fills the `aggregated` object is a method with a loop.
- `Similarity` (similarity.dfy): `buildMatrix` as a method filling a zero-initialised `array2<real>` with the triple loop of the code. It is proved against the specification function `Overlap`.
- `Interaction` (interaction.dfy): a class `Hover` holding the per-ribbon opacity array and the tooltip state, with one method per mouse event.
- `Pipeline` (pipeline.dfy): the body of the load callback, from loaded rows to labels, profiles and matrix.

Three behaviours of `app.js` that a reader might not expect are modelled as written:

- With no rows at all, `Object.keys(filteredData[0])` throws at line 54, after the labels were built. The promise's `catch` (line 72) logs the error and nothing is drawn. `OnLoad` reports `ok == false` and builds no profiles.
- Profile sums are non-negative only if no cell parses to a negative number (`ColumnSumNonNegative`). Nothing in the code enforces this.
- The tooltip of group `i` shows `filteredData[i]`, the i-th filtered row (line 123). That row is not necessarily dataset i's first row. `TooltipRowQuirk` exhibits the difference.

## Model

| member | source | states |
|---|---|---|
| Rows.OrElse | app.js:47 | `v \|\| fallback`: a non-empty string comes through; `undefined` or `""` gives the fallback |
| Rows.NumberOrZero | app.js:59 | `parseFloat(v) \|\| 0`: the parsed number, or 0 for a missing cell or an unparseable one |
| Selection.Names | app.js:36 | `data.map(d => d.dataset_name)`: one name per row, position by position |
| Selection.Distinct | app.js:36 | `Array.from(new Set(xs))`: no duplicates, and exactly the values of `xs` |
| Selection.Select | app.js:36 | the selection has length min(10, number of distinct names), no duplicates, and only names that occur in the data |
| Selection.SelectOrder | app.js:36 | selected names appear in strictly increasing order of first appearance |
| Selection.SelectPrefixClosed | app.js:36 | any name that first appears no later than a selected name is itself selected, so these are the first ten names |
| Selection.SelectAllWhenFew | app.js:36 | with at most ten distinct names, every name is selected |
| Selection.FilterRows | app.js:40 | a row is kept if and only if it is an input row whose dataset is selected |
| Selection.FilterAppend | app.js:40 | filtering distributes over concatenation, so kept rows keep their relative order |
| Selection.FilterSingle | app.js:40 | one row is kept exactly when its dataset is selected |
| Selection.FilterKeepsFirstRow | app.js:40-54 | for non-empty data the first filtered row is the first input row, so `filteredData[0]` is defined |
| Selection.FilterCoversSelection | app.js:36-40 | there are at least as many filtered rows as selected datasets |
| Selection.FindRow | app.js:45 | `find`: `None` exactly when no row has the name; otherwise the first row with that name |
| Selection.FindInFiltered | app.js:40-45 | for a selected name, searching the filtered rows finds the same first row as searching all rows |
| Selection.SelectedIsFound | app.js:36-46 | every selected name has a first row |
| Labels.LabelText | app.js:47 | the label template of a row; its segments are given by `LabelSegments` |
| Labels.Label | app.js:44-50 | the label of one dataset, from its first row or the line-49 fallback; `LabelOfSelected` shows the fallback is never taken for a selected dataset |
| Labels.DatasetLabels | app.js:44-50 | one label per selected dataset, in selection order |
| Labels.IndexOf | app.js:157 | the first occurrence of the separator at or after `from`, or `None` when there is none |
| Labels.Split | app.js:157 | `split`: at least one piece; the pieces joined with the separator give back the string; no piece contains the separator; each break is at the first occurrence of the separator in what remains |
| Labels.SplitPlain | app.js:157 | text without `\|` splits into itself alone |
| Labels.SplitField | app.js:157 | a field without `\|` followed by `" \| "` splits off as exactly that field |
| Labels.SplitJoin3 | app.js:47 | three fields without `\|`, joined as the label template joins them, split back into exactly those fields |
| Labels.SplitStraddle | app.js:47 | for field `"x \|"` the label does not split back into its fields, although no field contains `" \| "` |
| Labels.LabelOfSelected | app.js:44-50 | a selected dataset's label comes from its first row in the whole input, whose name is that dataset; the line-49 fallback is never taken |
| Labels.LabelSegments | app.js:47 | the label's three segments are the row's name, sample ID and country; each one is replaced by its own placeholder when missing or empty |
| Layout.Place | app.js:145-152 | the label transform and anchor of a group; `FlipOnLeftHalf`, `TurnRange` and `Upright` state what the rule achieves |
| Layout.Upright | app.js:145-152 | for a group inside [0, 2π], turn plus flip keeps the text within 90 degrees of pointing right (up to a whole turn), so no label reads upside down |
| Layout.FlipOnLeftHalf | app.js:148-152 | the flip is applied exactly when the radial turn exceeds 90 degrees |
| Layout.TurnRange | app.js:145-148 | for a group inside [0, 2π], the mid-angle lies within its arc and the turn within [-90, 270] degrees |
| Layout.Lines | app.js:157-165 | one (text, dy) line per split segment; `LinesRejoin` and `LabelLines` state its result |
| Layout.LinesRejoin | app.js:157-164 | a label's lines rejoin to the label; line 0 has dy 0 and every later line 1.1em |
| Layout.LabelLines | app.js:157-164 | a dataset label whose three fields contain no `\|` becomes three lines: name at dy 0, then sample ID and country at 1.1em |
| Aggregation.PrefixedKeys | app.js:54 | a key is kept if and only if it starts with `k__` |
| Aggregation.TaxonColumns | app.js:54 | no columns (the code throws) exactly when there are no filtered rows; otherwise the `k__` keys of the first filtered row |
| Aggregation.DatasetRows | app.js:56 | a row is kept if and only if it belongs to the dataset |
| Aggregation.AggregateDataset | app.js:56-61 | the profile is named after the dataset, has exactly the taxon columns as keys, and holds each column's sum over the dataset's rows |
| Aggregation.Aggregate | app.js:55-62 | one profile per selected dataset, same length and order as the selection |
| Aggregation.ColumnSum | app.js:59 | `d3.sum` of the parsed cells of one column; `DatasetSumIsMatchingSum` and `AggregationExact` tie it to the whole-input sum |
| Aggregation.PrefixedKeysNoDup | app.js:54 | distinct row keys give distinct taxon columns, so no column is summed twice |
| Aggregation.DatasetSumIsMatchingSum | app.js:56-59 | summing a dataset's rows equals summing over all rows, counting only that dataset's rows |
| Aggregation.FilterKeepsMatchingSum | app.js:40 | dropping the rows of unselected datasets does not change a selected dataset's sum |
| Aggregation.AggregationExact | app.js:54-62 | a selected dataset's column value is the sum of parsed values over exactly its rows of the whole input, with unparseable cells counting 0 |
| Aggregation.ColumnSumNonNegative | app.js:59 | sums are non-negative when no cell parses to a negative number |
| Aggregation.ColumnsFromFirstRow | app.js:54 | the taxon columns exist exactly when the input is non-empty, and are the `k__` keys of the first input row |
| Similarity.Value | app.js:82-83 | `parseFloat(profile[col]) \|\| 0` on a summed profile: its value, or 0 for a missing key |
| Similarity.Shared | app.js:84-85 | what one column adds to a cell: the smaller value when both are positive, otherwise 0 |
| Similarity.Overlap | app.js:81-87 | the value the column loop accumulates into one cell; `OverlapSymmetric`, `OverlapNonNegative`, `OverlapSelf` and `OverlapBounded` state its properties |
| Similarity.OverlapSymmetric | app.js:82-85 | cell [i][j] equals cell [j][i] |
| Similarity.OverlapNonNegative | app.js:84-85 | every cell is at least 0 |
| Similarity.OverlapSelf | app.js:82-85 | the diagonal cell is the profile's sum over its positive columns |
| Similarity.OverlapBounded | app.js:85 | no cell exceeds either profile's diagonal value |
| Similarity.ExampleOverlaps | app.js:79-89 | profiles A = 5, B = 1, C = 5 on one column give cells AA 5, AB 1, AC 5, BB 1, BC 1, CC 5 |
| Similarity.BuildMatrix | app.js:75-93 | a size × size matrix whose cells are the overlaps; it is symmetric, non-negative, has the positive mass on the diagonal, and no cell exceeds its row's diagonal |
| Interaction.MetadataOf | app.js:123-128 | the bodysite, disease, age and gender fields the tooltip shows, each `undefined` when the row lacks it |
| Interaction.Hover.constructor | app.js:21-24 | initially every ribbon is at full opacity and the tooltip is hidden, empty and unplaced |
| Interaction.Hover.MouseOver | app.js:115-133 | ribbons touching group i get opacity 1 and all others 0.1; the tooltip is shown with `rows[i]`'s metadata at cursor + 10 when that row exists, and otherwise left unchanged |
| Interaction.Hover.MouseMove | app.js:134-136 | only the tooltip position changes, to cursor + 10 |
| Interaction.Hover.MouseOut | app.js:137-140 | every ribbon back to opacity 1 and the tooltip hidden |
| Interaction.HoverSession | app.js:115-140 | a sequence of events: entering a second group replaces the first highlight and tooltip, moving keeps the highlight, leaving restores the idle state |
| Pipeline.OnLoad | app.js:32-70 | for rows with distinct keys: the selection, filtered rows and labels; with input, distinct columns, profiles equal to the whole-input sums and a fresh matrix of their overlaps; without input, failure |
| Pipeline.SelectOfThree | app.js:36 | rows A, A, B select A then B |
| Pipeline.TooltipRowQuirk | app.js:123 | with rows A, A, B, group 1 (B) reads the tooltip from the second A row, while B's first row is a different one |

## Left out

- Loading the CSV with `d3.csv` and the promise's `catch` (lines 32, 72): asynchronous I/O. `OnLoad` takes the loaded rows as its input.
- Not modelled because they are DOM drawing and D3 library calls (lines 1-29, 103-114, 153-154, 161-163, 168-177):
  - SVG and tooltip element creation, container sizing and the colour scale;
  - arc and ribbon path generation and the group `fill-opacity`;
  - `alignment-baseline`, font sizes and the `x` attribute of each line.
- The `d3.chord()` layout (lines 98-100) is a foreign library. Group angles (`Layout.Group`) and ribbon endpoints (`Interaction.Ribbon`) are inputs.
- `console.log` calls: logging only.
- Real `parseFloat` and IEEE-754 arithmetic: numbers are exact reals and `parse` is an arbitrary function. Inside `buildMatrix`, `parseFloat` of an already summed number is taken to give that number back (`Similarity.Value`). `Math.PI` is the decimal literal `3.141592653589793`.
- Tooltip HTML and pixel strings: the tooltip holds the four metadata fields and a cursor position + 10. Page coordinates are exact reals rather than doubles.
- Layout.Lines: the `<tspan>` elements appended to the label are modelled as a list of (text, dy) values, not as DOM mutation.
- Labels.SplitJoin3, Labels.LabelSegments and Layout.LabelLines require label fields without any `|`. Fields that merely avoid `" | "` are not enough, as `Labels.SplitStraddle` shows.
