# Birth-data dashboard: the load, clean, filter and aggregate pipeline

`app.py` is a single Streamlit script. It reads a CSV of provisional birth counts
and normalises the column names. It stops with an error if any of six required
fields is missing. It coerces `births` to a number and drops the rows where that
fails. It then builds the option lists of three sidebar controls (month, gender,
state). The rows are filtered by the user's choices; a choice that holds the
sentinel `"All"` does not restrict its dimension. The surviving rows are grouped
by `(state_of_residence, sex_of_infant)`, summed and sorted by state for a bar
chart, and shown as a table.

This project models that pipeline in Dafny and proves its properties:

- `wrappers.dfy`, module `Wrappers`: an `Option` type. `None` stands for pandas' NaN.
- `seqs.dfy`, module `Seqs`: `Filter` (pandas' boolean-mask selection) and order-preserving subsequences.
- `ordering.dfy`, module `Ordering`: strict total orders, and `SortedDistinct`, the model of `sorted(... .unique())`.
- `ordering.dfy`, module `Lex`: Python's string comparison (lexicographic by code point).
- `columns.dfy`, module `Columns`: header normalisation and the required-field check (line 20-28).
- `numerals.dfy`, module `Numerals`: the coercion of a `births` cell (line 30).
- `loader.dfy`, module `Loader`: records, and the loading method (lines 20-31).
- `engine.dfy`, module `Engine`: option lists, the three-stage filter, the group-sum and the sort by state (lines 33-56).
- `dashboard.dfy`, module `Dashboard`: one run of the script from header to chart.

The input file is modelled as an already-read header plus a rectangular
sequence of rows of cell strings. The three multiselect values are inputs. What
the script would render is returned as a `View` value.

Loading and filtering rebind `df` and `filtered_df` step by step, so they are
methods (`Loader.Load`, `Engine.ApplyFilters`, `Engine.Run`, `Dashboard.Render`).
Each is proved equal to a function that states its result. The list comprehension, the
option lists and the group-sum are expressions, so they are functions with
lemmas.

With the rows (CA, M, 10), (CA, F, 5) and (NY, M, "bad"), the NY row is dropped
because its births do not parse. The default `sort=True` of `groupby` orders the
keys by state and then by sex, so the chart is `[CA F 5, CA M 10]`
(`Dashboard.CaliforniaExample`). `sort_values` need not be stable, so the model
promises only that states do not decrease. `Engine.ChartSpec` proves the chart
properties for every such order.

## Model

| member | source | states |
|---|---|---|
| `Columns.Strip` | app.py:20 | The result has no whitespace at either end. It is the slice of the input left after cutting the longest all-whitespace prefix and suffix. |
| `Columns.Lower` | app.py:20 | Same length as the input; each character is its ASCII lower-case form. |
| `Columns.ReplaceSpaces` | app.py:20 | Same length as the input; every `' '` becomes `'_'` and every other character stays. |
| `Columns.NormalizeIsCanonical` | app.py:20 | A normalised name has no leading or trailing whitespace, no space and no upper-case letter. |
| `Columns.NormalizeIdempotent` | app.py:20 | Normalising an already normalised name changes nothing. |
| `Columns.MissingFields` | app.py:22-23 | The result is exactly the required names absent from the columns, as an order-preserving subsequence of the required list. It is empty iff all six are present. |
| `Columns.IndexOf` | app.py:30 | Column selection by label: the first position holding the name. |
| `Numerals.ParseBirths` | app.py:30 | A cell coerces to a number iff it is an optionally signed decimal numeral; otherwise it is missing. |
| `Numerals.ParseShowInt` | app.py:30 | Every integer written in decimal coerces back to itself. |
| `Loader.ToRecord` | app.py:30 | A record takes its state, month and sex from the cells under those normalised labels; its births is the coercion of the `births` cell. |
| `Loader.DropUnparsed` | app.py:31 | Every kept record has births. Records are kept iff their births parsed, with their multiplicities and in their original order. |
| `Loader.CleanKeepsParsedRows` | app.py:30-31 | A table row survives cleaning iff its births cell is a numeral. |
| `Loader.Load` | app.py:20-31 | Fails with the schema error iff a required field is absent after normalisation. The error lists exactly the missing fields and the normalised columns. Otherwise the result is the cleaned records, all with births. |
| `Ordering.SortedDistinct` | app.py:33-35 | The result is strictly ascending and holds exactly the values of the input. |
| `Ordering.AscendingUnique` | app.py:33-35 | Two strictly ascending lists with the same elements are equal, so `sorted(unique())` does not depend on row order. |
| `Lex.LessIsStrictTotalOrder` | app.py:33-35 | Python's string comparison is irreflexive, transitive and total. |
| `Engine.OptionList` | app.py:33-35 | Index 0 is `"All"`. The rest is strictly ascending and holds exactly the values that occur on that dimension. |
| `Engine.OptionListDeterminedByValues` | app.py:33-35 | Two datasets with the same set of values on a dimension get the same option list. |
| `Engine.Where` | app.py:44 | `isin` keeps an order-preserving subsequence: exactly the rows whose value is in the choice, each with its multiplicity. |
| `Engine.Selected` | app.py:41-50 | An order-preserving subsequence of the rows. A row is kept iff, on every dimension, the choice holds `"All"` or the row's value; kept rows keep their multiplicity. |
| `Engine.StageIsFilter` | app.py:43-50 | One conditional step (skipped when `"All"` is chosen) keeps exactly the rows its choice admits. |
| `Engine.StagesCompose` | app.py:41-50 | The three steps applied in turn equal the single conjunctive filter. |
| `Engine.ApplyFilters` | app.py:41-50 | The method's step-by-step rebinding of `filtered_df` yields exactly the conjunctive filter. |
| `Engine.AllLiftsRestriction` | app.py:43-50 | A choice holding `"All"` filters the same as `["All"]` alone, whatever else it holds. |
| `Engine.AllEverywhereKeepsEverything` | app.py:41-50 | With `"All"` in all three choices every row is kept. |
| `Engine.ExcludingChoiceSelectsNothing` | app.py:43-53 | A choice without `"All"` that names no present value (for one, the empty choice) keeps no row. |
| `Engine.KeyLessIsStrictTotalOrder` | app.py:55 | The group-key order (state, then sex) is a strict total order. |
| `Engine.GroupSumSpec` | app.py:55 | Group keys are strictly ascending and are exactly the keys present. Each row's births is its group's sum, and the total over groups equals the total over rows. |
| `Engine.InsertByState` | app.py:56 | Inserting into a state-sorted list keeps it sorted and adds exactly that row. |
| `Engine.SortByState` | app.py:56 | The result is non-decreasing by state and is a permutation of the input. |
| `Engine.AggTotalPermutation` | app.py:56 | Reordering the aggregate rows keeps their births total. |
| `Engine.PermutationKeepsUniqueKeys` | app.py:56 | Reordering the aggregate rows keeps their keys distinct. |
| `Engine.ChartSpec` | app.py:55-56 | For any state-sorted order of the group-sum: one row per distinct (state, sex) among the rows, each with its group's sum, and the chart total equals the filtered total. |
| `Engine.AggregateSpec` | app.py:55-56 | The computed chart is sorted by state and has all the properties of `ChartSpec`. |
| `Engine.Run` | app.py:41-56 | The empty-result warning is given iff the filtered rows are empty. Otherwise the table is the filtered rows and the chart is their aggregate. |
| `Dashboard.OptionsOf` | app.py:33-35 | Each of the three option lists starts with `"All"`, then the strictly ascending distinct values of its column. |
| `Dashboard.Render` | app.py:20-56 | A schema error halts before options or filtering and reports the missing fields and the columns. Otherwise options come from the cleaned records, the warning is given iff the selection keeps nothing, and the chart and table are computed from the selected rows. |
| `Dashboard.CaliforniaExample` | app.py:30-56 | In the three-row example the unparsable NY row is dropped, and the chart is `[CA F 5, CA M 10]`. |

## Left out

- Reading the CSV and the `FileNotFoundError` and generic-exception branches (app.py:11-18): file I/O. The model starts from an already-read header and rows.
- Every Streamlit and Plotly call: page set-up, widgets, `st.error`, `st.warning`, `st.stop`, the chart and `st.dataframe` (app.py:7-9, 26-28, 37-39, 53, 58-70). The selections are inputs, and a `View` value stands for what is shown.
- The `!pip install` line (app.py:1): not Python code.
- The rows must be rectangular (`Loader.Rectangular`): a data frame always is. Ragged CSV lines, which `read_csv` pads or rejects, are not modelled.
- pandas' dtype inference: every category cell is taken to be already its `astype(str)` form. Missing category cells (NaN, shown as `"nan"` and dropped as a `groupby` key) are not modelled.
- `Numerals.ParseBirths`: accepts only an optionally signed decimal integer. It does not model `pd.to_numeric` on decimals, exponents, surrounding whitespace, `"inf"` or `"nan"`, or float summation. Births are unbounded integers.
- Columns other than the six required ones are not carried in `Loader.Record`, although the source table displays them.
- A required name occurring twice after normalisation. For `births`, `month`, `sex_of_infant` or `state_of_residence`, label selection yields a data frame, and pandas raises an uncaught error: `pd.to_numeric` at app.py:30, or `unique` at app.py:33-35. The model reads the first such column instead. A duplicated `month_code` or `year_code` is never selected by label, so the script runs on and its table shows both columns. There, reading the first column changes nothing the model computes.
- Unicode whitespace and case folding in `str.strip` and `str.lower`: only ASCII is modelled.
- The multiselect widgets only offer values from the option lists. The model accepts any selection, and its properties hold for all of them.
- `Engine.SortByState`: a stable insertion sort stands in for pandas' `sort_values`, whose tie order is not guaranteed. Only the non-decreasing order of states is promised, and `Engine.ChartSpec` holds for every tie order.
- `reset_index(drop=True)` (app.py:70): a Dafny sequence is already indexed from zero.
