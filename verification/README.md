# Used-car price page: verified model of its predict and explore logic

This project models the logic of a one-page used-car price app. The page encodes the
fuel and transmission labels a user picks into integer codes. It builds a fixed
9-slot feature vector and asks a stored regression model for a price. After a
successful prediction, it reports the mean historical selling price of comparable
rows of a static car table. Independently, it shows an exploration view: the table
filtered by label sets and inclusive seat and year ranges.

Modules, one per component of the page:

- `Wrappers`: the `Option` type for dictionary lookups that can miss.
- `Encoding`: the two-level label-to-code table and the choices the select boxes offer.
- `Table`: the car row, inclusive ranges, the two query kinds and the one row filter `Select`.
  It also holds the declarative `IsSubsequence` predicate and the filter lemmas.
- `History`: the historical average, or the distinct "no historical data" state.
- `Predictor`: the feature vector and `ModelPred`. The stored model is a parameter `Artifact`.
  It is either unreadable or a regressor whose `predict` may raise.
- `Page`: the whole "Predict Price" action, the comparison rows, the exploration view and
  the default filter options.

The table and the stored model are explicit read-only parameters; nothing is mutated.
Prices are `real`; labels are `string`, so a table row may carry any label.

Two details of the code that the model keeps:

- The code's `model_pred` returns the model's whole output array. The caller reads
  element 0 inside the action's `try`, so an empty output is caught by the action's
  handler, not by `model_pred`. This is the `EmptyPrediction` outcome.
- The second slot of the feature vector is the constant 1 (besides 2018.0, 40000,
  19.70 and 86.30), as written in the code.

## Model

| member | source | states |
|---|---|---|
| Encoding.Encode | DSML_streamlit_CarPrice_Predictor-main/app.py:15-18 | A lookup succeeds exactly for the labels the page offers for that field. The code is the label's 1-based position among those choices. Any other field or label misses. |
| Encoding.OfferedLabels | DSML_streamlit_CarPrice_Predictor-main/app.py:39-41 | The fuel choices and the transmission choices are distinct, and they are exactly the labels the encoding table knows for that field. Any other field offers nothing. |
| Encoding.TableFidelity | DSML_streamlit_CarPrice_Predictor-main/app.py:15-18 | Diesel 1, Petrol 2, CNG 3, LPG 4, Electric 5; Manual 1, Automatic 2. |
| Encoding.EncodeInjective | DSML_streamlit_CarPrice_Predictor-main/app.py:15-18 | Within a field, two labels with the same code are equal. |
| Encoding.OfferedChoicesEncode | DSML_streamlit_CarPrice_Predictor-main/app.py:39-41 | Every fuel and transmission choice the select boxes offer has a code, so the lookups at lines 50-51 cannot miss for them. |
| Predictor.Features | DSML_streamlit_CarPrice_Predictor-main/app.py:28 | The vector has 9 slots. Slots 3, 4, 6 and 8 hold the fuel code, transmission code, engine and seats. The slots listed in `Placeholders` hold their constants. |
| Predictor.SlotsPartitioned | DSML_streamlit_CarPrice_Predictor-main/app.py:28 | Slots 0..8 split into the four input slots and the five placeholder slots 0, 1, 2, 5 and 7, with no overlap. |
| Predictor.PlaceholdersIgnoreInputs | DSML_streamlit_CarPrice_Predictor-main/app.py:28 | The placeholder slots are equal for any two sets of inputs. |
| Predictor.FeaturesInjective | DSML_streamlit_CarPrice_Predictor-main/app.py:28 | Equal vectors come from equal inputs: each input can be read back from its slot. |
| Predictor.ModelPred | DSML_streamlit_CarPrice_Predictor-main/app.py:21-34 | The result is the model's outputs exactly when the artifact loads and inference on the feature vector succeeds. Otherwise it is the "no result" sentinel. That sentinel carries the load error when loading failed and the raised error when inference failed. |
| Page.PredictPrice | DSML_streamlit_CarPrice_Predictor-main/app.py:47-76 | Ends in an unknown-category outcome exactly when a label is not offered; the fuel is looked up first. A miss reports the missing label with its field: the fuel label when it misses, otherwise the transmission label. Otherwise the outcome follows the estimator: failure with the estimator's reason, empty output, or a price equal to its first output. A price comes with the average over the comparison rows. |
| Page.OfferedInputsReachModel | DSML_streamlit_CarPrice_Predictor-main/app.py:49-57 | For offered labels, a price is shown if and only if the artifact loads and the model returns a non-empty output for the encoded vector. |
| Page.FailedPredictionSkipsComparison | DSML_streamlit_CarPrice_Predictor-main/app.py:54-74 | When the estimator returns "no result", the outcome is the same for every table: no price, and the comparison is never evaluated. |
| Page.PriceIgnoresYearsAndTable | DSML_streamlit_CarPrice_Predictor-main/app.py:44-57 | The price depends only on fuel, transmission, engine and seats. It does not depend on the year range or on the table. |
| Page.NoHistoryIffNoComparableRow | DSML_streamlit_CarPrice_Predictor-main/app.py:60-72 | With a price shown, "no historical data" is reported if and only if no row matches fuel, transmission, seats and the inclusive year range. |
| Page.ComparisonRows | DSML_streamlit_CarPrice_Predictor-main/app.py:60-65 | A row is kept iff it is in the table, its fuel, transmission and seats equal the selection, and its year is in the range (both ends inclusive). The result is a subsequence of the table. |
| Page.ComparisonIsNarrowExploration | DSML_streamlit_CarPrice_Predictor-main/app.py:60-65 | The comparison rows equal the exploration view for the singleton label sets and the one-value seat range. |
| History.HistoricalAverage | DSML_streamlit_CarPrice_Predictor-main/app.py:66-72 | A mean is reported iff the rows are non-empty, and then mean times count equals the sum of selling prices. Empty rows give the distinct no-data state, not 0. |
| History.TotalPrice | DSML_streamlit_CarPrice_Predictor-main/app.py:67 | The sum of the selling prices that the mean divides by the row count. It has no contract of its own; TotalPriceAppend, TotalPricePermutation and TotalPriceBounds state its properties. |
| History.TotalPriceAppend | DSML_streamlit_CarPrice_Predictor-main/app.py:67 | The sum over two consecutive blocks of rows is the sum of the two blocks' sums. |
| History.TotalPriceRemove | DSML_streamlit_CarPrice_Predictor-main/app.py:67 | The sum equals any one row's price plus the sum over the other rows. |
| History.TotalPricePermutation | DSML_streamlit_CarPrice_Predictor-main/app.py:67 | Rows that are a reordering of each other have the same sum, so the mean does not depend on row order. |
| History.TotalPriceBounds | DSML_streamlit_CarPrice_Predictor-main/app.py:67 | If every price lies in [lo, hi], the sum lies between count times lo and count times hi. |
| History.AverageWithinPrices | DSML_streamlit_CarPrice_Predictor-main/app.py:67 | The reported mean lies between any lower and upper bound of the rows' prices. |
| History.AverageOfEqualPrices | DSML_streamlit_CarPrice_Predictor-main/app.py:67 | If all rows sold for the same price, the mean is that price. |
| Table.Matches | DSML_streamlit_CarPrice_Predictor-main/app.py:60-107 | The row condition of each query: the equality mask at lines 60-65 and the isin/between mask at lines 102-107. It has no contract of its own; Select, ComparisonRows and Explore state which rows it keeps. |
| Table.Select | DSML_streamlit_CarPrice_Predictor-main/app.py:60-107 | Applies either mask: the comparison mask at lines 60-65 and the exploration mask at lines 102-107. A row is in the result iff it is in the table and matches the query. The result is never longer than the table. |
| Table.SelectIsSubsequence | DSML_streamlit_CarPrice_Predictor-main/app.py:102-107 | The result is obtained from the table by deleting rows: order kept, rows unmodified. |
| Table.SelectMultiplicity | DSML_streamlit_CarPrice_Predictor-main/app.py:102-107 | A matching row occurs as often in the result as in the table. A non-matching row never occurs. |
| Table.SelectAll | DSML_streamlit_CarPrice_Predictor-main/app.py:102-107 | If every row matches, the result is the whole table. |
| Table.SelectNone | DSML_streamlit_CarPrice_Predictor-main/app.py:102-107 | If no row matches, the result is empty. |
| Table.SelectMonotone | DSML_streamlit_CarPrice_Predictor-main/app.py:102-107 | A query that accepts every row another accepts selects a supersequence of the other's result. |
| Table.SelectExtensional | DSML_streamlit_CarPrice_Predictor-main/app.py:102-107 | Two queries that agree on every row select the same sequence. |
| Page.Explore | DSML_streamlit_CarPrice_Predictor-main/app.py:102-107 | A row is shown iff it is in the table, its fuel and transmission are in the selected sets, and its seats and year lie in the inclusive ranges. The view is a subsequence of the table. |
| Page.ExploreMultiplicity | DSML_streamlit_CarPrice_Predictor-main/app.py:102-107 | A qualifying row is shown as often as it occurs in the table; others never. |
| Page.ExploreMonotone | DSML_streamlit_CarPrice_Predictor-main/app.py:102-107 | Widening any selected set or range never removes a row. The narrower view is a subsequence of the wider one. |
| Page.ExploreDisjointSeats | DSML_streamlit_CarPrice_Predictor-main/app.py:94-107 | A seat range that contains no row's seat count gives the empty view. |
| Page.FuelValues | DSML_streamlit_CarPrice_Predictor-main/app.py:86-88 | Every row's fuel label is among the fuel filter's options. |
| Page.TransmissionValues | DSML_streamlit_CarPrice_Predictor-main/app.py:90-92 | Every row's transmission label is among the transmission filter's options. |
| Page.OptionsArePresent | DSML_streamlit_CarPrice_Predictor-main/app.py:86-92 | Every filter option is the label of some row of the table. |
| Page.MinSeats | DSML_streamlit_CarPrice_Predictor-main/app.py:94-96 | The seat slider's lower end is at most every row's seats and is some row's seats. |
| Page.MaxSeats | DSML_streamlit_CarPrice_Predictor-main/app.py:94-96 | The seat slider's upper end is at least every row's seats and is some row's seats. |
| Page.ExploreFullSelection | DSML_streamlit_CarPrice_Predictor-main/app.py:86-107 | Selecting all present fuels and transmissions, the slider's full seat range and 1991..2024 shows the whole table in order. This needs every year to lie in 1991..2024. |

## Left out

- Page widgets, layout and message rendering: user interface, not logic. The error and warning texts are not modelled. Outcomes carry only the missing label or the error reason.
- Reading the car table from CSV (app.py:9): file I/O. The table is a given sequence of rows.
- Loading the stored model from disk (app.py:24-25) and its `predict` (app.py:30): file I/O and an opaque foreign object. Both are the `Artifact` parameter. Reloading the artifact on every call is not modelled: it has no effect on a pure model.
- Floating-point semantics and the two-decimal rounding for display (app.py:57, app.py:69): prices and features are exact reals.
- Missing values in the table: the model's rows have no NaN. So the mean's skipping of NaN and the comparisons' treatment of NaN are not modelled.
- The free-text car model input (app.py:43): it is collected but no logic reads it.
- Slider bounds and defaults (engine 500..5000 step 100, seats 2..14, the exploration seat default (4, 7)): UI configuration. The operations accept any integers.
- Page.ExploreFullSelection: stated for a non-empty table only. For an empty table the seat slider's bounds come from the minimum and maximum of an empty column, which fails before any filtering.
- Exceptions the table operations of app.py:60-72 could raise on malformed columns: the model's rows are well-typed, so the action's handler (app.py:75-76) is reached only by an encoding miss or an empty model output.
