# Network-traffic classifier: verified model of the frontend state logic and the batch endpoint

The application classifies network flows as benign or as one of several attack
types. The React frontend has two parts. A single-prediction form sends thirteen
numeric features. A batch panel uploads a CSV file and lists the annotated rows
in the order of the response, in a plain table, with a per-label summary.
`ResultsTable.jsx` is a separate sortable-table component that `App.jsx` does
not render. The Flask backend answers three routes: `/predict`, `/predict_batch`
and `/explain`. This project models the deterministic logic of both tiers in
Dafny, except the `/predict` route:

- `AppContext`: the application state and the reducer `appReducer`, with one
  lemma per action and lemmas for composed dispatches.
- `App`: the demo records behind "Test with Bot" and the handlers of the top-level
  component. The handlers are methods of `App.Controller`, which holds the
  reducer state, the actions dispatched so far and the files sent to the batch
  endpoint. The component also has the two projections it renders: probabilities
  highest first, and the summary without `total_rows`.
- `InputForm`: the thirteen-field schema, the form values derived from optional
  initial features, edits, resets, and the submit flow with the coercion
  `Number(value) || 0`. `InputForm.Form` is the component's state.
- `ResultsTable`: the standalone component. It has the sorting hook (comparator,
  stable sort of a copy, click-to-toggle configuration), the header arrow and
  the row's class list.
- `Predict`: the `/predict_batch` validation chain and the processing of an
  accepted file. `Predict.DataFrame` is the data frame changed in place by
  column assignment and `reset_index`. The module also has the label summary
  and the `/explain` top-three selection.
- Shared modules:
  - `Wrappers`: Option and Result.
  - `JsValues`: JSON cells, truthiness, `||` on strings, `Number(text)` for
    decimal texts and `String(n)` for decimal literals.
  - `Api`: the JSON shapes, and the outcome of an HTTP request.
  - `Sorting`: a stable insertion sort, as a function and in place on an array.
    It is proved sorted and stable. A lemma shows that every sorted, stable
    permutation equals it. So `Array.prototype.sort`, which ECMA-262 requires to
    be stable since its 2019 edition, and Python's `sorted` produce exactly its
    output for any consistent comparator.

Things outside the model are parameters:
- the result of an awaited `axios.post` (`Api.Outcome`: the body, or the
  `error` field of the rejected response);
- `Math.random()`;
- `localeCompare` and `Number.prototype.toString` (`ResultsTable.Host`);
- `pd.read_csv`;
- the scaler, model and label-encoder pipeline, as one function from the
  feature matrix to labels or an error text.

## Model

| member | source | states |
|---|---|---|
| AppContext.TypeOf | frontend/src/contexts/AppContext.js:20-29 | a well-formed action is unrecognised exactly when its type is none of the eight `ActionTypes` |
| AppContext.Reduce | frontend/src/contexts/AppContext.js:32-85 | a batch action leaves the four single-prediction fields unchanged; any other action leaves the three batch fields unchanged; the default case returns the state itself |
| AppContext.SetSinglePredictionResultEffect | frontend/src/contexts/AppContext.js:34-40 | prediction and probabilities come from the payload; the error is the payload's error when non-empty, else ""; initialFormFeatures and the batch half are unchanged |
| AppContext.ResetSinglePredictionEffect | frontend/src/contexts/AppContext.js:41-48 | the single-prediction half becomes that of initialState; the batch half is unchanged |
| AppContext.SetInitialFormFeaturesEffect | frontend/src/contexts/AppContext.js:49-57 | the payload is stored; prediction, probabilities and error are cleared; the batch half is unchanged |
| AppContext.SetFileEffect | frontend/src/contexts/AppContext.js:58-64 | the file is stored; batchError and batchResults are always cleared; the single-prediction half is unchanged |
| AppContext.SetBatchResultsEffect | frontend/src/contexts/AppContext.js:65-70 | results come from the payload; batchError is the payload's error when non-empty, else ""; the file and the single half are unchanged |
| AppContext.ResetBatchStateEffect | frontend/src/contexts/AppContext.js:71-77 | the batch half returns to initialState; the single half is unchanged; a second reset changes nothing |
| AppContext.SetBatchErrorEffect | frontend/src/contexts/AppContext.js:78-79 | the state is the old state with only batchError replaced |
| AppContext.SetSinglePredictionErrorEffect | frontend/src/contexts/AppContext.js:80-81 | the error is set; prediction and probabilities become null; everything else is unchanged |
| AppContext.UnrecognisedIsIgnored | frontend/src/contexts/AppContext.js:82-83 | an action with an unknown type returns the state unchanged |
| AppContext.ResetsRestoreInitialState | frontend/src/contexts/AppContext.js:4-17 | from any state, the two resets in either order give exactly initialState |
| AppContext.ReduceAllSnoc | frontend/src/contexts/AppContext.js:95 | dispatching one more action applies the reducer to the state the earlier actions reached |
| AppContext.ReduceAll | frontend/src/contexts/AppContext.js:95 | dispatching a run of unrecognised actions leaves the state unchanged |
| AppContext.HalvesAreIndependent | frontend/src/contexts/AppContext.js:32-85 | a run of batch actions leaves the single half unchanged, and a run of the other actions leaves the batch half unchanged |
| App.DemoRecordKeys | frontend/src/App.jsx:8-33 | every demo record has exactly the thirteen field names of the form's schema |
| App.Stringified | frontend/src/App.jsx:73-75 | the same keys as the record; each value is a text that `Number` reads back as the record's number |
| App.RandomIndex | frontend/src/App.jsx:70 | `floor(random * 4)` is an index of a demo record, for every `random` in [0, 1) |
| App.BotFeaturesFillForm | frontend/src/App.jsx:69-78 | the form built from the bot's features shows each field's demo value as text, and submitting it sends that value as a number |
| App.BotFeatures | frontend/src/App.jsx:71-75 | the bot's features have the demo record's keys, and each text reads back as the record's value |
| App.ByProbabilityDesc | frontend/src/App.jsx:150 | negative when the first probability is higher, positive when it is lower, zero when equal |
| App.FractionalDemoValue | frontend/src/App.jsx:27-32 | the fourth demo record's `Flow_Packets/s` reaches the request body as 0.17 |
| App.DisplayedProbabilities | frontend/src/App.jsx:150 | the listed entries are a permutation of the response's probabilities |
| App.DisplayedProbabilitiesOrder | frontend/src/App.jsx:150 | a permutation, in non-increasing probability order; entries with equal probability keep the response's order |
| App.SummaryEntries | frontend/src/App.jsx:183 | an entry is listed exactly when it is in the summary and its key is not `total_rows` |
| App.SummaryEntriesOrder | frontend/src/App.jsx:183 | filtering distributes over concatenation, so kept entries stay in the summary's order |
| App.BatchErrorMessage | frontend/src/App.jsx:105 | the response's error when non-empty, else "An error occurred during batch prediction."; never empty |
| App.Controller.constructor | frontend/src/contexts/AppContext.js:95 | the state starts as initialState, with nothing dispatched and an empty form |
| App.Controller.Dispatch | frontend/src/contexts/AppContext.js:95 | the new state is the reducer applied to the old one; the form is rebuilt exactly when the stored initial features are replaced |
| App.Controller.HandleSinglePredictionResult | frontend/src/App.jsx:51-60 | dispatches SET_SINGLE_PREDICTION_RESULT with the data's three fields; the batch half is unchanged |
| App.Controller.HandleResetSinglePrediction | frontend/src/App.jsx:62-67 | the form is cleared through its ref and the single half returns to initialState; the batch half is unchanged |
| App.Controller.HandleTestWithBot | frontend/src/App.jsx:69-78 | dispatches the stringified demo record at the random index; the prior result is cleared and the form shows the record |
| App.Controller.HandleFileChange | frontend/src/App.jsx:80-83 | stores the first chosen file, or none when the list is empty; the batch results and error are cleared |
| App.Controller.StartBatchPredict | frontend/src/App.jsx:85-96 | without a file, only batchError is set to 'Please select a file first.' and no request is sent; with one, results are null and the error is "" before the file is sent |
| App.Controller.FinishBatchPredict | frontend/src/App.jsx:98-108 | on success the results are the response data and the error is ""; on failure the results are null and the error is the response's error or the fixed text |
| App.Controller.HandleBatchPredict | frontend/src/App.jsx:85-109 | the whole handler, for each combination of file presence and request outcome |
| App.Controller.HandleResetBatch | frontend/src/App.jsx:111-116 | the file, batch results and batch error return to their initial values |
| App.Controller.SubmitSinglePrediction | frontend/src/App.jsx:129-135 | a submit of the rendered form: on failure the form and the page show the same message and the earlier result is cleared |
| InputForm.SchemaShape | frontend/src/components/InputForm.jsx:5-19 | thirteen fields, named as `FieldNames`, each a number field with default "" |
| InputForm.FieldNamesDistinct | frontend/src/components/InputForm.jsx:5-19 | the schema's names are pairwise distinct |
| InputForm.FindIndex | frontend/src/components/InputForm.jsx:66 | the first position whose name matches, or the length when none does |
| InputForm.FindField | frontend/src/components/InputForm.jsx:66 | a found field is in the schema and has the name looked for |
| InputForm.FindSchemaField | frontend/src/components/InputForm.jsx:66 | looking up a schema field's name finds that field |
| InputForm.FindOtherName | frontend/src/components/InputForm.jsx:66 | a name outside the schema finds nothing |
| InputForm.AllFieldsNumeric | frontend/src/components/InputForm.jsx:5-19 | every schema name finds a field of type "number" |
| InputForm.FormDataUpTo | frontend/src/components/InputForm.jsx:23-26 | after the first i fields, the i-th field's name has an entry |
| InputForm.FormDataUpToFields | frontend/src/components/InputForm.jsx:23-26 | after the first i fields, those fields hold their initial values and no other key is present |
| InputForm.InitialValue | frontend/src/components/InputForm.jsx:24 | a field with a value in the initial features takes that value; a schema field without one starts empty |
| InputForm.InitialFormData | frontend/src/components/InputForm.jsx:22-27 | the key set is exactly the schema's names; each field holds its override when one is given, else its default |
| InputForm.GenerateInitialFormData | frontend/src/components/InputForm.jsx:22-27 | the accumulator loop builds exactly `InitialFormData` |
| InputForm.InitialFeaturesShown | frontend/src/components/InputForm.jsx:24 | a field with an override shows it; a field without one, or with no features at all, shows "" |
| InputForm.UpdateKeepsOtherFields | frontend/src/components/InputForm.jsx:48-51 | an edit of a present field keeps the key set, sets that field and leaves every other value as it was |
| InputForm.Coerce | frontend/src/components/InputForm.jsx:68 | 0 exactly when `Number` fails or reads zero; otherwise the number `Number` reads |
| InputForm.CoerceEntry | frontend/src/components/InputForm.jsx:66-70 | a schema key's value is coerced to a number; any other key keeps its text |
| InputForm.CoerceForSubmit | frontend/src/components/InputForm.jsx:64-72 | the same key set as the form; schema fields coerced, other keys kept as text |
| InputForm.CoerceHundred | frontend/src/components/InputForm.jsx:68 | "100" is coerced to 100 |
| InputForm.SubmitAfterTyping | frontend/src/components/InputForm.jsx:48-72 | typing "100" into an empty form's first field sends 100 for it and 0 for the other twelve |
| InputForm.CoerceNumberText | frontend/src/components/InputForm.jsx:68 | the text of a number literal is coerced back to that number |
| InputForm.SubmitErrorMessage | frontend/src/components/InputForm.jsx:80 | the response's error when non-empty, else "Error submitting data."; never empty |
| InputForm.Form.constructor | frontend/src/components/InputForm.jsx:29-31 | the form starts from the initial features, not loading, with no error |
| InputForm.Form.OnInitialFeaturesChanged | frontend/src/components/InputForm.jsx:34-36 | the values are rebuilt from the new initial features |
| InputForm.Form.ResetFormFields | frontend/src/components/InputForm.jsx:39-42 | the values are the defaults and the error is cleared |
| InputForm.Form.SetFormFields | frontend/src/components/InputForm.jsx:43-45 | the values are rebuilt from the given features; the error is kept |
| InputForm.Form.HandleChange | frontend/src/components/InputForm.jsx:48-51 | only the named input changes; the key set is kept when the field was present |
| InputForm.Form.HandleFormResetInternal | frontend/src/components/InputForm.jsx:53-57 | whatever was typed, the values are the defaults, the error is cleared, and `onReset` is called exactly when it was given |
| InputForm.Form.BeginSubmit | frontend/src/components/InputForm.jsx:59-72 | loading is on, the error is cleared, and the body is the coerced form |
| InputForm.Form.FinishSubmit | frontend/src/components/InputForm.jsx:74-85 | loading is off on both paths; on failure the error is set and `onPrediction` gets the error with null prediction and probabilities |
| InputForm.Form.HandleSubmit | frontend/src/components/InputForm.jsx:59-86 | the whole submit: the coerced body is sent, loading ends false, and the error and the notification depend on the outcome |
| JsValues.OrElse | frontend/src/App.jsx:105 | the logical-or fallback on a possibly missing string: the string when it is non-empty, else the fallback |
| JsValues.ParseNumber | frontend/src/components/InputForm.jsx:68 | the empty text reads as 0; a text of digits only reads as its value; a text that starts with a character other than a digit, a point or a sign, has a character other than a digit or a point further on, has two points, or has no digit at all reads as NaN |
| JsValues.ParseNumberText | frontend/src/App.jsx:74 | `Number(String(n))` gives back n for every decimal literal n |
| JsValues.NumberText | frontend/src/App.jsx:74 | a non-empty text that starts with a minus sign exactly when the literal is negative; reading it back gives the value (`ParseNumberText`) |
| Sorting.InsertionSort | frontend/src/ResultsTable.jsx:9-26 | the output is a permutation of the input |
| Sorting.InsertionSortCorrect | frontend/src/ResultsTable.jsx:9-26 | for a consistent comparator, the output is sorted and each tie class keeps its input order |
| Sorting.StableSortIsUnique | frontend/src/ResultsTable.jsx:9 | every sorted permutation that keeps tie classes in input order equals the insertion sort, so any stable sort gives the same rows |
| Sorting.KeySortOrder | backend/predict.py:81 | sorting by a numeric key gives non-decreasing keys and keeps ties in input order |
| Sorting.InsertInPlace | frontend/src/ResultsTable.jsx:9 | inserting one element into the sorted prefix of an array yields the functional insertion of it |
| Sorting.InsertionSortInPlace | frontend/src/ResultsTable.jsx:9 | the array afterwards is the insertion sort of its old contents |
| ResultsTable.ToNumber | frontend/src/ResultsTable.jsx:18-21 | a number operand converts to itself |
| ResultsTable.CompareCells | frontend/src/ResultsTable.jsx:12-25 | a string on the left is collated against the other value, with the arguments swapped when descending; otherwise -1, 0 or 1, negative exactly when the left value is `<` the right one when ascending (`>` when descending), positive in the opposite case |
| ResultsTable.RowComparator | frontend/src/ResultsTable.jsx:9-11 | the comparison of two rows depends only on their values in the sort column |
| ResultsTable.SortedRows | frontend/src/ResultsTable.jsx:6-29 | a permutation of the rows; without a configuration, the rows in their own order |
| ResultsTable.SortItems | frontend/src/ResultsTable.jsx:7-9 | copies the rows into a new array and sorts the copy, so the given array is unchanged; the result is `SortedRows` |
| ResultsTable.SortIsStable | frontend/src/ResultsTable.jsx:9-26 | for a consistent comparator, the sorted rows are in comparator order and ties keep their input order |
| ResultsTable.NumericComparator | frontend/src/ResultsTable.jsx:18-24 | on a column of numbers, the comparator is the sign of the difference, negated when descending |
| ResultsTable.NumericColumnOrder | frontend/src/ResultsTable.jsx:18-24 | a column of numbers ends up non-decreasing (ascending) or non-increasing (descending), with equal numbers in input order |
| ResultsTable.AscendingNumbers | frontend/src/ResultsTable.jsx:18-24 | ascending: the numbers never decrease down the table, and ties keep their order |
| ResultsTable.DescendingNumbers | frontend/src/ResultsTable.jsx:18-24 | descending: the numbers never increase down the table, and ties keep their order |
| ResultsTable.TextComparator | frontend/src/ResultsTable.jsx:13-16 | on a column of strings, the comparator is `localeCompare`, with the arguments swapped when descending |
| ResultsTable.TextComparatorConsistent | frontend/src/ResultsTable.jsx:13-16 | a consistent collation gives a consistent row comparator |
| ResultsTable.TextColumnOrder | frontend/src/ResultsTable.jsx:13-16 | a column of strings ends up in collation order (reversed when descending), with equal strings in input order |
| ResultsTable.NextSortConfig | frontend/src/ResultsTable.jsx:31-41 | the requested key, descending if and only if the current configuration is that key ascending |
| ResultsTable.RequestSortToggles | frontend/src/ResultsTable.jsx:31-41 | a second request for the same key flips the direction; from ascending, two requests return to ascending |
| ResultsTable.AllColumns | frontend/src/ResultsTable.jsx:47 | the given columns, then 'prediction' |
| ResultsTable.SortDirectionSymbol | frontend/src/ResultsTable.jsx:50-55 | an arrow only on the sorted column: ' ▲' exactly when ascending, ' ▼' exactly when descending |
| ResultsTable.InitialArrows | frontend/src/ResultsTable.jsx:48-55 | under the table's initial configuration only the 'prediction' column has an arrow, and it is ' ▲' |
| ResultsTable.SymbolAfterRequest | frontend/src/ResultsTable.jsx:31-55 | after a click on a column only that column has an arrow, pointing down exactly when it pointed up before |
| ResultsTable.SortableData.constructor | frontend/src/ResultsTable.jsx:3-4 | the hook starts with the given configuration |
| ResultsTable.SortableData.Items | frontend/src/ResultsTable.jsx:6-29 | the rows shown are a permutation of the given rows |
| ResultsTable.SortableData.RequestSort | frontend/src/ResultsTable.jsx:31-41 | the new configuration is `NextSortConfig` of the old one |
| ResultsTable.Texts | frontend/src/ResultsTable.jsx:10-11 | one text per row, the row's column value |
| ResultsTable.ClassTokens | frontend/src/ResultsTable.jsx:75 | two space-free words joined by a space denote their non-empty ones |
| ResultsTable.RowClass | frontend/src/ResultsTable.jsx:75 | the class list is 'attack-row' when `is_attack` is truthy, then 'selected-row' when the row's index is the selected one |
| ResultsTable.RowClassMarkers | frontend/src/ResultsTable.jsx:75 | 'attack-row' if and only if `is_attack` is truthy; 'selected-row' if and only if `selectedRowIndex === row.index` |
| Predict.ServerError | backend/predict.py:72-73 | status 500 with "Batch processing error: " and the exception's text |
| Predict.CheckUpload | backend/predict.py:53-58 | no `file` part gives 'No file part'; an empty name gives 'No selected file'; a name that is missing or does not end in '.csv' gives 'Invalid file type'; otherwise the part is accepted |
| Predict.HasFeatureColumns | backend/predict.py:61 | true exactly when every feature name is among the columns; then there is at least one column |
| Predict.FeatureMatrix | backend/predict.py:63 | one row of twenty values per CSV row, in `feature_names` order |
| Predict.IndexColumn | backend/predict.py:67 | `reset_index` names the column "index", or "level_0" when "index" exists, and fails exactly when both exist |
| Predict.DataFrame.constructor | backend/predict.py:60 | the frame holds the CSV's columns and rows |
| Predict.DataFrame.SetColumn | backend/predict.py:66 | a list of the frame's length sets the column in every row and adds the name when new; any other length is refused with pandas' message |
| Predict.DataFrame.ResetIndex | backend/predict.py:67 | each row gets its number in the new first column, or the error when no name is free |
| Predict.ValueCounts | backend/predict.py:69 | exactly the labels that occur, each with its number of occurrences |
| Predict.Summary | backend/predict.py:69-70 | `total_rows` is the row count; every other label maps to its count; no other keys |
| Predict.CountsSum | backend/predict.py:69 | the counts add up to the number of labels |
| Predict.SummaryTotals | backend/predict.py:69-70 | `total_rows` is the number of rows, and the per-label counts add up to it when no label is 'total_rows' |
| Predict.Annotated | backend/predict.py:66-68 | a label list of the wrong length fails with the pandas message; a success has one record per row and label |
| Predict.LabelCells | backend/predict.py:66 | one string cell per label, in order |
| Predict.AnnotatedRow | backend/predict.py:66-71 | the row's keys plus 'prediction' and the index column; the index column holds the row number, 'prediction' the label, and every other key its CSV value |
| Predict.Annotate | backend/predict.py:66-68 | the in-place column assignment and `reset_index` on a data frame give exactly `Annotated` |
| Predict.CountLabels | backend/predict.py:69 | the counting loop gives exactly `ValueCounts` |
| Predict.CountStep | backend/predict.py:69 | counting one more label adds one to that label's count |
| Predict.FrameResponse | backend/predict.py:60-73 | status 200, 400 or 500; 400 exactly when a feature column is missing; a 200 answer carries the results and has one record per CSV row |
| Predict.BatchResponse | backend/predict.py:51-74 | status 200, 400 or 500; a rejected upload is answered with its rejection; a 200 answer means the upload was accepted, the CSV was read and it has every feature column |
| Predict.ProcessFrame | backend/predict.py:60-73 | the body of the `try` gives exactly `FrameResponse` |
| Predict.PredictBatch | backend/predict.py:51-74 | the endpoint gives exactly `BatchResponse` |
| Predict.ValidationOrder | backend/predict.py:53-58 | the three 400 answers come in order, before the file is read |
| Predict.MissingColumnsRejected | backend/predict.py:61-62 | a CSV without some feature column gets 'CSV is missing required columns' with 400, whatever the classifier would answer |
| Predict.SuccessfulResponse | backend/predict.py:63-71 | a 200 answer has one record per row with its label and row number, and the summary of those labels |
| Predict.Abs | backend/predict.py:81 | non-negative, and x or -x |
| Predict.ByMagnitudeDesc | backend/predict.py:81 | negative when the first magnitude is larger, positive when it is smaller, zero when equal |
| Predict.RankedFeatures | backend/predict.py:81 | a permutation of the feature items |
| Predict.TopFeatures | backend/predict.py:82 | three items, or all of them when there are fewer |
| Predict.Explain | backend/predict.py:82 | every value is "high"; the keys are exactly the names of the top items |
| Predict.TopFeatureFromInput | backend/predict.py:81-82 | every top item is an item of the request |
| Predict.ExplainChoosesFromInput | backend/predict.py:81-82 | at most three entries, each named by a feature of the request |
| Predict.KeysSize | backend/predict.py:82 | a list of items has no more distinct names than items |
| Predict.MagnitudeConsistent | backend/predict.py:81 | ordering by decreasing magnitude is a consistent comparator |
| Predict.RankedByMagnitude | backend/predict.py:81 | the ranking is by non-increasing magnitude, and equal magnitudes keep the request's order |
| Predict.OmittedAreSmaller | backend/predict.py:81-82 | a feature left out of the explanation is no larger in magnitude than any chosen one |

## Left out

- HTTP and environment plumbing: `axios.post`, `FormData`, the `VITE_API_BASE_URL` URLs and Flask's `jsonify`. Each request is an `Api.Outcome` parameter. Any rejected request, network errors included, is a `Failed` outcome, whose error field is present only when the response body has one.
- React machinery: `createContext`, `useReducer`, `useState`, `useMemo`, `useEffect`, `forwardRef`, refs and JSX. The reducer's state and each component's state are records or class fields. An effect runs exactly when the stored `initialFeatures` object is replaced (`App.Controller.Dispatch`).
- Display formatting: `toFixed`, percentage widths and CSS classes other than the row class.
- Math.random is the `random` parameter of `App.Controller.HandleTestWithBot`, a real in [0, 1).
- JsValues.ParseNumber: models `Number(text)` only on decimal texts (an optional sign, digits, an optional fraction, and the empty text as 0). Surrounding whitespace, exponents, `Infinity`, hexadecimal and binary forms read as NaN in the model, which the coercion turns into 0 as well. Floating-point rounding is not modelled: values are exact reals.
- String(n): modelled only for the decimal literals of the demo records (`JsValues.NumberText`), not for exponent notation. `NumberText` writes all the digits of the literal after the point; this is JavaScript's text only when the last of them is not zero, which holds for every demo value.
- ResultsTable.CompareCells: in descending order with a string on the left and a non-string on the right, the source calls `localeCompare` on the non-string and throws. The model converts it with `String()` instead. Mixed-type columns are otherwise compared as `<` does.
- ResultsTable.TextColumnOrder and ResultsTable.SortIsStable: assume the collation is a consistent total order on the column's values. Nothing is claimed for comparators that are not.
- `localeCompare` and `Number.prototype.toString` are the `ResultsTable.Host` parameter, because both depend on the engine and the locale.
- handleResetBatch clearing the DOM file input (App.jsx:113-115) and the null check on the form ref (App.jsx:63) are not modelled. App always renders InputForm, so the ref is always attached.
- The `/predict` endpoint, the loading of the ML artifacts (backend/predict.py:1-49) and backend/notebook.py are not part of this model. They are ML and I/O.
- `pd.read_csv` and the scaler/model/label-encoder chain are the `readCsv` and `classify` parameters of `Predict.PredictBatch`. Their exception texts are the error strings they return.
- Predict.CheckUpload: the uploaded file's name is an `Option`. A part with no name is falsy, so it falls through to 'Invalid file type', as `file and ...` does.
- Predict.Explain: `float()` conversion errors and a missing `features` key (the 500 answer at backend/predict.py:84-85) are not modelled. Feature values are reals.
- Predict.Summary: the summary is counted from the labels the classifier returned, which is the column `value_counts` reads. The order of keys in the JSON object is not modelled (maps).
- Predict.SummaryTotals: the per-label counts add up to `total_rows` only when no label is literally 'total_rows'. Otherwise the assignment overwrites that label's count.
- Object key order: `Object.entries` order is a sequence in `Api.BatchData` and `Api.Probabilities`, but results and form values are maps.
- InputForm.Form.SetFormFields: features are texts. `String()` of a non-string override is not modelled.
- InputForm.Form.HandleChange: the key set is kept only when the edited name was already a field. An input always carries a schema name.
- The backend's `feature_names` (backend/predict.py:27-34) differ from the frontend schema. No agreement between the two tiers is stated. Likewise, the batch rows' `is_attack` field is not something the backend produces.
