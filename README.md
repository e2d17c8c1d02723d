# careercon2019 data-preparation helpers, modelled in Dafny

The repository holds data-preparation helpers for a sensor time-series
classification competition. The competition has nine floor-surface classes.
This project models the two pieces of those helpers that have logic to verify:

- **The multiclass accuracy metric** (`accuracy` in `lightgbm_helpers.py`). This is
  the custom evaluation function given to LightGBM. It receives the labels `y_true`
  and a flat, class-major score vector `y_pred`. It reshapes `y_pred` to a 9-by-n
  matrix, so the score of class `c` for row `i` is `y_pred[c*n + i]`. It decodes
  each row to its first highest-scoring class (numpy `argmax` along axis 0). It
  reports `('accuracy', fraction of rows decoded to their label, True)`.
- **The column-selection helpers** (`columns`, `starts` and `dropcols` in `utils.py`).
  A dataframe is abstracted as its ordered sequence of column names. `columns` keeps
  the names a pattern matches. `starts` keeps the names that begin with a string.
  `dropcols` removes the requested names, and with `missing_ok` it ignores requested
  names the frame does not have.

Files:

- `results.dfy`: the `Result` type, used for the operations the source can abandon by raising.
- `sequences.dfy`: the order-preserving filter `Filter` that the column-selection
  helpers are built from, the subsequence relation, and lemmas about them.
- `lightgbm_helpers.dfy`: the reshape, the argmax decoding, the boolean mean and the
  accuracy metric.
- `utils.dfy`: `Columns`, `Starts`, `Present` (the `isin` mask), `Drop` (pandas
  `drop(columns=...)`) and `Dropcols`.

Modelling decisions:

- Scores are `real`, because they are only compared.
- The metric's value is a `Value`: the exact rational `matches / n`, or `NaN` when
  there are no rows. numpy returns NaN for the mean of an empty vector, so `n = 0`
  is modelled rather than excluded.
- A `y_pred` whose length is not `9 * len(y_true)` makes numpy's reshape raise. The
  model returns `Err(ReshapeError(...))` for it.
- Without `missing_ok`, a requested name that is not a column makes pandas' `drop`
  raise `KeyError`. The model returns `Err(KeyError(missing))`, where `missing` holds
  the absent names in request order.
- Reshape positions are computed by `RowStart(c, cols)`, the sum of `c` row widths.
  `RowStartIsProduct` proves it equals `c * cols`, and `ReshapeLayout` states the
  layout with the product. Keeping the other proofs in terms of `RowStart` keeps
  them linear.

## Model

| member | source | states |
|---|---|---|
| LightgbmHelpers.Reshape | lightgbm_helpers.py:3 | fails exactly when the vector's length is not rows*cols; otherwise a rows-by-cols matrix whose entry (c, i) is the flat element at the start of row c plus i, a position within the vector (row-major layout; ReshapeLayout restates it as c*cols + i) |
| LightgbmHelpers.RowStartIsProduct | lightgbm_helpers.py:3 | the start of row c in a row-major layout with `cols` columns is c*cols |
| LightgbmHelpers.Split | lightgbm_helpers.py:3 | the consecutive cut into `rows` pieces of `cols` elements: every row lies within the vector, and row c, column i holds the element at the start of row c plus i |
| LightgbmHelpers.ReshapeLayout | lightgbm_helpers.py:3 | numpy's C-order layout: for a well-sized vector, entry (c, i) of the reshape is flat element c*cols + i |
| LightgbmHelpers.ArgMax | lightgbm_helpers.py:3 | the returned index is in range, its score is at least every other score, and every earlier index scores strictly less (numpy's first-maximum tie-break) |
| LightgbmHelpers.FirstMaxUnique | lightgbm_helpers.py:3 | at most one index is a first maximum, so the ArgMax contract fixes numpy's choice |
| LightgbmHelpers.ClassScoresLayout | lightgbm_helpers.py:3 | the score of class c for row i, read off the flat vector, is y_pred[c*n + i] |
| LightgbmHelpers.ColumnIsClassScores | lightgbm_helpers.py:3 | column i of the reshaped scores equals the 9 scores of row i read directly off the flat vector |
| LightgbmHelpers.ArgMaxAxis0 | lightgbm_helpers.py:3 | one entry per matrix column, each the first maximum of that column |
| LightgbmHelpers.Decode | lightgbm_helpers.py:2-3 | fails exactly when y_pred does not hold 9*n scores; otherwise n decoded classes, each in 0..8 and the first highest-scoring class among the scores y_pred[c*n + i] for c in 0..8 (read off the flat vector by ClassScores) |
| LightgbmHelpers.ElementwiseEqual | lightgbm_helpers.py:4 | `y_true == y_hat`: one boolean per row, true exactly when the label equals the decoded class, so the positions holding true are exactly the rows whose label was decoded (the set the metric counts) |
| LightgbmHelpers.CountTrue | lightgbm_helpers.py:4 | the number of true entries, the sum inside `.mean()`; it never exceeds the length |
| LightgbmHelpers.CountTrueIsCardinality | lightgbm_helpers.py:4 | the recursive count of true entries equals the number of positions holding true |
| LightgbmHelpers.CountTrueAll | lightgbm_helpers.py:4 | the count equals the length exactly when every entry is true |
| LightgbmHelpers.CountTrueNone | lightgbm_helpers.py:4 | the count is 0 exactly when no entry is true |
| LightgbmHelpers.Mean | lightgbm_helpers.py:4 | NaN exactly for an empty vector; otherwise (number of true positions) / length, which lies in [0, 1] |
| LightgbmHelpers.Accuracy | lightgbm_helpers.py:1-5 | fails exactly when len(y_pred) != 9*len(y_true); otherwise name "accuracy" and flag true for every input; value NaN exactly when there are no rows, else #{i : y_true[i] == y_hat[i]} / n |
| LightgbmHelpers.AccuracyInUnitInterval | lightgbm_helpers.py:4 | for n > 0 and a well-sized y_pred the value lies in [0, 1] |
| LightgbmHelpers.AccuracyOneIffAllMatch | lightgbm_helpers.py:4 | the value is 1 exactly when every row is decoded to its label |
| LightgbmHelpers.AccuracyZeroIffNoneMatch | lightgbm_helpers.py:4 | the value is 0 exactly when no row is decoded to its label |
| Sequences.Filter | utils.py:27 | boolean-mask selection: each accepted value keeps its multiplicity, every rejected value is gone, and the result is no longer than the input |
| Sequences.FilterMembership | utils.py:27 | a value is selected exactly when it occurs in the input and is accepted |
| Sequences.FilterIsSubsequence | utils.py:27 | the selection keeps the input's order (it is a subsequence) |
| Sequences.FilterKeepsAll | utils.py:35-37 | a mask accepting every element gives the input back unchanged |
| Sequences.FilterCongruent | utils.py:35-37 | two masks that agree on every element select the same sequence |
| Utils.Columns | utils.py:25-27 | an in-order subsequence of the column names that holds exactly the names the pattern matches, with their multiplicities |
| Utils.Starts | utils.py:30-31 | for a literal string: an in-order subsequence holding exactly the column names that have the string as a prefix |
| Utils.MatchLiteralsIsPrefix | utils.py:26-31 | matching literal characters one by one from the start of the text, as `re.match` does, succeeds exactly when the literal is a prefix of the text |
| Utils.MatchAnchoredLiteral | utils.py:26-31 | `re.match` of a pattern made of an optional `^` and literal characters succeeds exactly when the text has the literal as a prefix |
| Utils.Present | utils.py:36 | an in-order subsequence of the frame's columns holding exactly the requested ones, with their multiplicities |
| Utils.Drop | utils.py:37 | fails exactly when some label is not a column, reporting exactly the absent labels; otherwise an in-order subsequence without any labelled column and with every other column kept |
| Utils.Dropcols | utils.py:34-37 | never fails with missing_ok; fails without it exactly when a requested name is absent; the result is an in-order subsequence holding exactly the columns not requested, with their multiplicities |
| Utils.DropcolsIsFilter | utils.py:34-37 | with missing_ok the result is exactly the frame's columns outside the request, in their original order |
| Utils.DropcolsStrictAgrees | utils.py:35-37 | without missing_ok, a request naming only existing columns gives the same result as with it |
| Utils.DropcolsDisjointUnchanged | utils.py:35-37 | with missing_ok, a request disjoint from the columns returns the columns unchanged |
| Utils.DropcolsIdempotent | utils.py:35-37 | with missing_ok, dropping the same request twice equals dropping it once |

## Left out

- `to_feather` and `from_feather` (utils.py:11-22) write and read files through the feather library and create directories. This is file-system I/O.
- `float64` (utils.py:39) is a numpy dtype cast, which is a floating-point conversion.
- The `TMP` and `DATA` path constants (utils.py:5, 8) are environment configuration.
- info.py declares column-name to dtype dictionaries and `ID_COLS`. These are constants with no behaviour.
- The stratified k-fold splitter lives outside utils.py and lightgbm_helpers.py. It wraps scikit-learn and is not modelled.
- Utils.Columns: the regular-expression semantics of `str.match` are not modelled. The pattern is abstracted as the test it performs on a name.
- Utils.Starts: holds only for a string with no regular-expression metacharacters (its `requires IsLiteral`). For any other string, the source's `'^' + string` is a real regular expression, which is not modelled.
- LightgbmHelpers.Accuracy: the value is the exact rational `matches / n`. The float rounding of numpy's `mean` is not modelled, and neither are NaN scores in `argmax`.
- LightgbmHelpers.Accuracy: labels are integers. A label outside 0..8 never matches, as in numpy.
- Utils.Dropcols: `cols` is modelled as a sequence of names. A single scalar label is not modelled. With the default `missing_ok=True`, a scalar makes `df.columns.isin(cols)` raise `TypeError` (utils.py:36). Only the `missing_ok=False` path hands a scalar to `drop`, which accepts it.
- LightgbmHelpers.Mean: for an empty vector numpy also emits a `RuntimeWarning` ("Mean of empty slice"). The model returns `NaN` and does not capture the warning.
- Utils.Drop: for a frame whose column names repeat, pandas' `KeyError` message lists every requested label, not just the absent ones. The model always reports the absent ones. Whether the call fails is the same either way.
