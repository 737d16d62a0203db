# print_metrics reconciler, modelled in Dafny

`print_metrics` (plot_and_print/print_metrics.py) compares a Keras training
run with a previous run. It prints a three-section table (Training,
Validation, Test) with a "Prev" and a "Current" column. Before it can compare
anything it reconciles two sources that can disagree:

- the current `history.history`, a map from metric name to per-epoch values;
- a previous table of per-epoch values (pandas, typically read back from a
  CSVLogger file), which may be missing or may have other columns;
- optionally, the test-set results of the current and of the previous model.

This project models that reconciliation, the comparator `get_tdstyle`, the
per-row choice of comparison direction, and the returned dictionary.

- `values.dfy` (module `MetricValues`): a cell is `Empty` (the `""`
  sentinel), `Num(x)` (a number rounded to ten places) or `Pct(p)` (the
  `"p%"` string of an accuracy-family metric). Also here: rounding and
  formatting, Python truthiness of a cell, "val_" keys, the error and result
  types, `list.index`.
- `styles.dfy` (module `Styles`): `get_tdstyle` and the direction rule
  ("loss" is lower-is-better, a name containing "accuracy" is
  higher-is-better, any other name is unstyled).
- `reconciler.dfy` (module `Reconciler`): the stages of lines 59-150 as
  methods over the six dictionaries, with loops and invariants:
  - previous extraction;
  - test extraction by first declared index;
  - current extraction with the falsy backfill;
  - absorbing the columns that only the previous run logged ("legacy
    columns", lines 119-141);
  - making the test keys symmetric.

  The composed methods `ExtractRuns` and `Reconcile` state the dictionaries
  at line 117 and at line 151 outright (`TrainingAligned`,
  `ValidationAligned`, `TrainingFinal`, `ValidationFinal`, `TestFinal`).
  `SectionRows` builds the rows of a section, and lemmas say which sections
  can be rendered.
- `report.dfy` (module `Report`): the whole of `print_metrics`. The resolved
  metric-name list is a heap object (`NameList`) that can be the model's own
  `metrics_names`; line 125 appends to it in place. `PrintMetrics` produces
  the table as data and the `dict(zip(...))` return value.

Errors are results rather than preconditions:

- the ValueError of line 49;
- the AttributeError of `model.optimizer` when no model is given (line 89);
- the KeyError of a history lookup for a resolved name or its "val_" key
  (lines 94, 97);
- the KeyError of the validation section (lines 199-203), which is raised
  whenever validation is absent and there are metric names, or when a legacy
  column has no "val_" column in the previous table.

Where the code and its documented behaviour disagree, the model follows the
code:

- Only the previous epoch label is normalised from 0 to `""` (line 53); the
  current `epochs` is shown unchanged.
- The returned dictionary pairs the final name list with the evaluation
  results by position (line 219). So it can include appended legacy columns,
  and it misattributes values when an explicit name list is ordered
  differently from the model's declared names (`Report.MispairingExample`).
  The comment at line 220 holds when there are no more results than resolved
  names (`Report.AppendedNamesExcluded`); with more results, appended columns
  can be paired (`Report.MispairingExample`).
- The rows are not guaranteed: the validation section raises a KeyError as
  described above (`Reconciler.ValidationRowsRenderIff`).
- The comparison runs on the formatted cells, not the raw numbers. Rounding
  can hide a difference (`Styles.RoundingHidesSmallDifferences`) but never
  reverses one (`Styles.FormattingNeverReverses`).
- Validation counts as present when any history key starts with "val", not
  "val_" (line 60; `Reconciler.ValidationPrefixQuirk`).

## Model

| member | source | states |
|---|---|---|
| `MetricValues.Magnitude` | plot_and_print/print_metrics.py:158-161 | the number a non-empty cell is compared by: the number itself for a plain cell, the number before the `%` sign for a percentage |
| `MetricValues.Falsy` | plot_and_print/print_metrics.py:95 | Python truthiness of a cell: `""` and a numeric zero are falsy, a non-zero number is truthy, and every percentage string (including "0.00%") is truthy |
| `MetricValues.FalsyAt` | plot_and_print/print_metrics.py:98 | `not d.get(k)`: a missing key counts as falsy, a percentage cell never does |
| `MetricValues.Format` | plot_and_print/print_metrics.py:68-69 | a stored cell is never the empty sentinel, and it is a percentage exactly when the name contains "accuracy" |
| `MetricValues.RoundToMonotone` | plot_and_print/print_metrics.py:68 | rounding to a number of decimals never reverses the order of two values |
| `MetricValues.FormatMonotone` | plot_and_print/print_metrics.py:68-69 | the compared magnitude of a formatted cell is monotone in the raw value, for plain and percentage cells alike |
| `MetricValues.AccuracyFormatExample` | plot_and_print/print_metrics.py:68-69 | an accuracy of 0.8765432109876 is kept as 0.876543211 and shown as "87.65%" |
| `MetricValues.IndexOf` | plot_and_print/print_metrics.py:81 | `list.index`: a position holding the name, with no earlier position holding it |
| `Styles.GetTdStyle` | plot_and_print/print_metrics.py:153-169 | `get_tdstyle`: no style exactly when either operand is `""` or the two compared magnitudes are equal; otherwise good or bad by the sign of current minus previous in the given direction |
| `Styles.RowStyle` | plot_and_print/print_metrics.py:186-211 | the per-row dispatch of all three sections: "loss" compared lower-is-better, a name containing "accuracy" higher-is-better, every other name unstyled; a style is only given to two non-empty cells with different magnitudes |
| `Styles.RowStyleMeaning` | plot_and_print/print_metrics.py:184-212 | in every section, "loss" is good exactly when it drops and bad exactly when it rises, an accuracy-family name is good exactly when it rises and bad exactly when it drops, and every other row or any row with an empty side is unstyled |
| `Styles.EmptyMeansNoStyle` | plot_and_print/print_metrics.py:155 | `get_tdstyle` gives no style when either operand is `""` |
| `Styles.HigherIsBetterVerdicts` | plot_and_print/print_metrics.py:162-165 | with higher-is-better: good iff current > previous, bad iff current < previous, none iff equal |
| `Styles.LowerIsBetterFlips` | plot_and_print/print_metrics.py:163-168 | lower-is-better is the higher-is-better verdict with good and bad exchanged |
| `Styles.SwapOperandsFlips` | plot_and_print/print_metrics.py:153-169 | exchanging the two operands exchanges good and bad |
| `Styles.FormattingNeverReverses` | plot_and_print/print_metrics.py:158-162 | comparing the formatted cells (percent sign stripped) never gives the opposite verdict of the raw values |
| `Styles.DirectionExamples` | plot_and_print/print_metrics.py:186-187 | a loss falling from 0.5 to 0.3 is good, an accuracy falling from 80% to 75% is bad, an empty side or an "lr" row is plain |
| `Styles.RoundingHidesSmallDifferences` | plot_and_print/print_metrics.py:158-165 | two accuracies equal to two decimals of a percent are shown alike and left unstyled |
| `Reconciler.ValidationPresent` | plot_and_print/print_metrics.py:60 | validation counts as present when some history key starts with "val"; in particular any "val_" key switches it on |
| `Reconciler.TestValue` | plot_and_print/print_metrics.py:81-85 | the test cell of a declared name: the evaluation result at its first declared position, formatted, so never `""` and a percentage exactly for an accuracy-family name |
| `Reconciler.ValidationPrefixQuirk` | plot_and_print/print_metrics.py:60 | a history with the key "value" and no "val_" key counts as having validation |
| `Reconciler.ExtractPrevTraining` | plot_and_print/print_metrics.py:65-72 | the previous training cells are exactly the resolved names that are table columns, with their last-row values; a "val_" cell exists exactly when validation is present and the table has both the column and its "val_" column |
| `Reconciler.ExtractTest` | plot_and_print/print_metrics.py:79-85 | a test cell exists exactly for the resolved names the evaluator declares, holding the result at the first declared position; nothing when the evaluator did not run |
| `Reconciler.Backfill` | plot_and_print/print_metrics.py:95 | the backfilled cell is empty exactly when the stored one was falsy (missing, `""` or numeric zero), and otherwise is the stored one |
| `Reconciler.Backfilled` | plot_and_print/print_metrics.py:98 | a truthy stored value survives the backfill and a missing or falsy one becomes `""` |
| `Reconciler.ExtractOne` | plot_and_print/print_metrics.py:93-101 | one name: success exactly when the history has it (and its "val_" key when validation is present), otherwise a KeyError for an absent key; on success the current cell is set and the previous cell backfilled, and the validation pair likewise only when validation is present |
| `Reconciler.TrainingStep` | plot_and_print/print_metrics.py:94-95 | one more name keeps the training-extraction invariant: current keys are the names done, previous keys extended by them, every earlier entry kept |
| `Reconciler.ValidationStep` | plot_and_print/print_metrics.py:96-98 | one more name keeps the validation-extraction invariant for the "val_" keys |
| `Reconciler.ExtractNext` | plot_and_print/print_metrics.py:92-101 | one loop turn extends the extraction state by one name, or fails with a KeyError exactly when the history lacks a needed key |
| `Reconciler.ExtractCurrTraining` | plot_and_print/print_metrics.py:92-101 | succeeds exactly when the history covers every resolved name (and its "val_" key when validation is present); then both training dictionaries have exactly the resolved names, with the last history values against the backfilled previous ones, and the same for the "val_" keys |
| `Reconciler.ValColumnsOf` | plot_and_print/print_metrics.py:129-130 | the "val_" columns of the table belonging to a list of names: `ValKey(m)` is in it exactly when `m` is listed and the table has `ValKey(m)` |
| `Reconciler.AbsorbOne` | plot_and_print/print_metrics.py:125-141 | one legacy column: previous training gets its last value and current `""`; its "val_" column likewise only if the table has it; the test pair likewise only if the previous evaluator declares it; nothing else changes |
| `Reconciler.TrainingAbsorbStep` | plot_and_print/print_metrics.py:126-128 | absorbing one more column keeps every earlier training entry |
| `Reconciler.ValidationAbsorbStep` | plot_and_print/print_metrics.py:129-133 | absorbing one more column keeps every earlier validation entry |
| `Reconciler.TestAbsorbStep` | plot_and_print/print_metrics.py:135-141 | absorbing one more column keeps every earlier test entry |
| `Reconciler.AppendFresh` | plot_and_print/print_metrics.py:125 | appending a name not yet listed keeps the list free of duplicates |
| `Reconciler.AbsorbedNothing` | plot_and_print/print_metrics.py:119 | with no legacy column absorbed, the dictionaries are as they were |
| `Reconciler.AbsorbKey` | plot_and_print/print_metrics.py:123-141 | one loop turn extends the absorbed state by one column |
| `Reconciler.AbsorbLegacyColumns` | plot_and_print/print_metrics.py:119-141 | the appended names are exactly the table columns missing from current training that do not start with "val_", each once; each is absorbed as `AbsorbOne` describes and every other entry is kept |
| `Reconciler.FillEmpty` | plot_and_print/print_metrics.py:146-147 | the given keys are added as `""` and every other entry is kept |
| `Reconciler.FillEmptyBoth` | plot_and_print/print_metrics.py:148-150 | the given keys are added as `""` to both dictionaries and every other entry is kept |
| `Reconciler.SymmetrizeTest` | plot_and_print/print_metrics.py:144-150 | both test dictionaries end with the same keys, namely all keys of either and every metric name; earlier values are never overwritten and new entries are `""` |
| `Reconciler.SectionRows` | plot_and_print/print_metrics.py:184-212 | one row per name in order, with its cells under `prefix + name` and the style of the direction rule; a KeyError for the first name whose key is missing exactly when some key is missing |
| `Reconciler.TrainingAlignedHolds` | plot_and_print/print_metrics.py:92-95 | after extraction, every resolved name is a key of both training dictionaries, showing its last history value against its backfilled previous value |
| `Reconciler.ValidationAlignedHolds` | plot_and_print/print_metrics.py:96-98 | after extraction, both validation dictionaries have the same keys: the "val_" keys of the resolved names when validation is present, none otherwise |
| `Reconciler.ExtractRuns` | plot_and_print/print_metrics.py:59-115 | the state at line 117: success exactly when the history covers the names; training and validation aligned as above; test cells as the evaluators declare them |
| `Reconciler.TrainingFinalHolds` | plot_and_print/print_metrics.py:119-128 | after schema drift, both training dictionaries have exactly the resolved names and the legacy columns; no resolved-name value is overwritten |
| `Reconciler.ValidationFinalHolds` | plot_and_print/print_metrics.py:129-133 | after schema drift, both validation dictionaries still have the same keys; a legacy column gets a "val_" cell exactly when the table has its "val_" column |
| `Reconciler.TestFinalHolds` | plot_and_print/print_metrics.py:134-150 | after drift and symmetry, both test dictionaries have exactly the final names as keys; a cell holds the evaluator's result where it declares the name, otherwise `""` |
| `Reconciler.Reconcile` | plot_and_print/print_metrics.py:59-150 | the complete reconciliation: the error cases, the appended legacy columns (exactly the drifted non-"val_" columns, without duplicates), and the six dictionaries as `TrainingFinal`, `ValidationFinal` and `TestFinal` state them |
| `Reconciler.TrainingRowsRender` | plot_and_print/print_metrics.py:184-190 | the training section never raises a KeyError |
| `Reconciler.TestRowsRender` | plot_and_print/print_metrics.py:207-214 | the test section never raises a KeyError |
| `Reconciler.ValidationRowsRenderIff` | plot_and_print/print_metrics.py:195-203 | the validation section renders exactly when validation is present (or there are no resolved names) and every legacy column has its "val_" column in the table |
| `Report.Resolved` | plot_and_print/print_metrics.py:50 | the list worked on: an explicit name list is used as the very object passed, otherwise the model's own `metrics_names` object |
| `Report.NameList.constructor` | plot_and_print/print_metrics.py:50 | a list holds the names it is made with |
| `Report.Model.constructor` | plot_and_print/print_metrics.py:89 | a model holds its declared name list and learning rate |
| `Report.NormalizePrevEpochs` | plot_and_print/print_metrics.py:53 | a previous-epoch label of 0 becomes `""`; anything else, `""` included, passes unchanged |
| `Report.PrevLr` | plot_and_print/print_metrics.py:64 | there is a previous learning rate exactly when the previous table has an "lr" column |
| `Report.ZipMap` | plot_and_print/print_metrics.py:219 | `dict(zip(ks, vs))`: pairs by position up to the shorter sequence; every key is one of the names |
| `Report.ZipMapPositional` | plot_and_print/print_metrics.py:219 | `dict(zip(ks, vs))` has exactly the names at the paired positions as keys, and with distinct names each maps to the value at its own position |
| `Report.ReturnedValues` | plot_and_print/print_metrics.py:105-115 | when the model was evaluated, the values zipped are its results, one per result and the i-th being `Some` of the i-th result; otherwise one `None` per resolved name |
| `Report.AppendedNamesExcluded` | plot_and_print/print_metrics.py:219-220 | with no more values than resolved names, no appended legacy column is a key of the returned dictionary |
| `Report.MispairingExample` | plot_and_print/print_metrics.py:219 | with explicit names ["accuracy"], declared names ["loss", "accuracy"] and the legacy column "loss", the returned dictionary gives "accuracy" the loss value and "loss" the accuracy value |
| `Report.PrintMetrics` | plot_and_print/print_metrics.py:48-219 | the whole function. ValueError without names or model; AttributeError without a model. KeyError (list unchanged) when the history lacks a resolved key. Otherwise the resolved list, which may be the model's own, grows by exactly the legacy columns, and the call succeeds exactly when the validation section renders. On success: the epoch and learning-rate cells, the three sections as rows of the final dictionaries, and the positional return value |

## Left out

- HTML and display: the table is returned as rows; the HTML markup, the row
  spans, the border styles and the `ipyccmd` display calls (lines 47,
  171-218) are not modelled.
- Labels: the title-casing of row labels (`replace("_", " ").title()`,
  line 189) is not modelled. A row carries the metric name.
- TensorFlow calls: `model.evaluate` and `model.optimizer.lr.numpy()` are
  replaced by given result sequences and a given learning rate. The choice
  between `ds_test` and `X_test, y_test` (lines 77-78, 105-106) is reduced to
  one flag, since both give a result list. A Keras model with a single
  metric returns a scalar rather than a list; the model assumes a list.
- pandas: the previous table is a map from column to a non-empty sequence of
  reals. Missing values (NaN) and non-numeric columns are not modelled.
- MetricValues.Format: rounding is exact half-up rounding on reals. Binary
  floating point, Python's half-to-even `round` and the `:.2f` / `:.10f`
  renderings are not modelled. The lemmas only use monotonicity and a few
  computed values.
- Report.PrintMetrics: the `history` argument is required. A `None`
  history fails at line 60, before the `history is not None` test of line
  90; that failure is not modelled.
- Report.PrintMetrics: the previous model's name list must not be the
  resolved list. If it were, the appends of line 125 would change what lines
  136-137 find while the drift loop is running.
- Report.PrintMetrics: an epoch label is a count or a string. Other Python
  values that compare equal to 0 (such as `0.0` or `False`) are not
  modelled.
- Reconciler.AbsorbLegacyColumns: the legacy columns are taken in an
  arbitrary order, as iterating over a Python set does. The contract states
  their set and that each is appended once, not their order.
- Report.PrintMetrics: the appends of line 125 are made in a single
  assignment after the drift loop. Nothing reads the list in between, given
  the requirement above.
- Report.PrintMetrics: the model does not capture what happens once an
  exception has been raised, beyond the list contents. The partly filled
  dictionaries are local and are lost with the exception.
