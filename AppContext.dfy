/**
 * The application state shared through the React context, and the reducer that
 * is its only transition function. Every case builds a new record from the old
 * one; the unrecognised action type leaves the state as it is.
 */
module AppContext {
  import opened Wrappers
  import opened JsValues
  import opened Api

  datatype AppState = AppState(
    prediction: Option<string>,
    probabilities: Option<Probabilities>,
    singlePredictionError: string,
    initialFormFeatures: Option<map<string, string>>,
    file: Option<FileHandle>,
    batchResults: Option<BatchData>,
    batchError: string)

  /** The state before any action: nothing predicted, no file, no errors. */
  const InitialState := AppState(None, None, "", None, None, None, "")

  /**
   * A dispatched action. `Unrecognised` is an action whose `type` is none of
   * `ActionTypeNames`; the other constructors carry the payload their case reads.
   */
  datatype Action =
    | SetSinglePredictionResult(result: PredictionData)
    | ResetSinglePrediction
    | SetInitialFormFeatures(features: map<string, string>)
    | SetFile(file: Option<FileHandle>)
    | SetBatchResults(results: Option<BatchData>, error: Option<string>)
    | ResetBatchState
    | SetBatchError(message: string)
    | SetSinglePredictionError(message: string)
    | Unrecognised(tag: string)

  /** The `ActionTypes` constants, in declaration order. */
  const ActionTypeNames: seq<string> := [
    "SET_SINGLE_PREDICTION_RESULT", "RESET_SINGLE_PREDICTION", "SET_INITIAL_FORM_FEATURES",
    "SET_FILE", "SET_BATCH_RESULTS", "RESET_BATCH_STATE", "SET_BATCH_ERROR",
    "SET_SINGLE_PREDICTION_ERROR"]

  /** An action value as the source can build it: an unrecognised one has an unknown type. */
  predicate WellFormed(a: Action) {
    a.Unrecognised? ==> a.tag !in ActionTypeNames
  }

  /** The `type` field of an action. */
  function TypeOf(a: Action): (t: string)
    ensures WellFormed(a) ==> (a.Unrecognised? <==> t !in ActionTypeNames)
  {
    match a
    case SetSinglePredictionResult(_) => ActionTypeNames[0]
    case ResetSinglePrediction => ActionTypeNames[1]
    case SetInitialFormFeatures(_) => ActionTypeNames[2]
    case SetFile(_) => ActionTypeNames[3]
    case SetBatchResults(_, _) => ActionTypeNames[4]
    case ResetBatchState => ActionTypeNames[5]
    case SetBatchError(_) => ActionTypeNames[6]
    case SetSinglePredictionError(_) => ActionTypeNames[7]
    case Unrecognised(tag) => tag
  }

  /** The single-prediction half of the state. */
  function Single(s: AppState): (Option<string>, Option<Probabilities>, string, Option<map<string, string>>) {
    (s.prediction, s.probabilities, s.singlePredictionError, s.initialFormFeatures)
  }

  /** The batch half of the state. */
  function Batch(s: AppState): (Option<FileHandle>, Option<BatchData>, string) {
    (s.file, s.batchResults, s.batchError)
  }

  predicate IsBatchAction(a: Action) {
    a.SetFile? || a.SetBatchResults? || a.ResetBatchState? || a.SetBatchError?
  }

  /** `appReducer`: every action changes only its own half of the state. */
  function Reduce(s: AppState, a: Action): (r: AppState)
    ensures IsBatchAction(a) ==> Single(r) == Single(s)
    ensures !IsBatchAction(a) ==> Batch(r) == Batch(s)
    ensures a.Unrecognised? ==> r == s
  {
    match a
    case SetSinglePredictionResult(d) =>
      s.(prediction := d.prediction, probabilities := d.probabilities,
         singlePredictionError := OrElse(d.error, ""))
    case ResetSinglePrediction =>
      s.(prediction := None, probabilities := None, singlePredictionError := "",
         initialFormFeatures := None)
    case SetInitialFormFeatures(f) =>
      s.(initialFormFeatures := Some(f), prediction := None, probabilities := None,
         singlePredictionError := "")
    case SetFile(f) =>
      s.(file := f, batchError := "", batchResults := None)
    case SetBatchResults(results, error) =>
      s.(batchResults := results, batchError := OrElse(error, ""))
    case ResetBatchState =>
      s.(file := None, batchResults := None, batchError := "")
    case SetBatchError(m) =>
      s.(batchError := m)
    case SetSinglePredictionError(m) =>
      s.(singlePredictionError := m, prediction := None, probabilities := None)
    case Unrecognised(_) =>
      s
  }

  /** The state after dispatching `actions` in order; a run of unrecognised actions changes nothing. */
  function ReduceAll(s: AppState, actions: seq<Action>): (r: AppState)
    ensures (forall i :: 0 <= i < |actions| ==> actions[i].Unrecognised?) ==> r == s
    decreases |actions|
  {
    if actions == [] then s
    else
      assert forall i :: 1 <= i < |actions| ==> actions[1..][i - 1] == actions[i];
      ReduceAll(Reduce(s, actions[0]), actions[1..])
  }

  // ---------------------------------------------------------------------------
  // One lemma per case
  // ---------------------------------------------------------------------------

  lemma SetSinglePredictionResultEffect(s: AppState, d: PredictionData)
    ensures var r := Reduce(s, SetSinglePredictionResult(d));
      && r.prediction == d.prediction && r.probabilities == d.probabilities
      && (d.error.Some? && d.error.value != "" ==> r.singlePredictionError == d.error.value)
      && (d.error.None? || d.error == Some("") ==> r.singlePredictionError == "")
      && r.initialFormFeatures == s.initialFormFeatures
      && Batch(r) == Batch(s)
  {
  }

  lemma ResetSinglePredictionEffect(s: AppState)
    ensures var r := Reduce(s, ResetSinglePrediction);
      && Single(r) == Single(InitialState)
      && Batch(r) == Batch(s)
  {
  }

  lemma SetInitialFormFeaturesEffect(s: AppState, f: map<string, string>)
    ensures var r := Reduce(s, SetInitialFormFeatures(f));
      && r.initialFormFeatures == Some(f)
      && r.prediction.None? && r.probabilities.None? && r.singlePredictionError == ""
      && Batch(r) == Batch(s)
  {
  }

  lemma SetFileEffect(s: AppState, f: Option<FileHandle>)
    ensures var r := Reduce(s, SetFile(f));
      && r.file == f && r.batchError == "" && r.batchResults.None?
      && Single(r) == Single(s)
  {
  }

  lemma SetBatchErrorEffect(s: AppState, m: string)
    ensures Reduce(s, SetBatchError(m)) == s.(batchError := m)
  {
  }

  lemma SetBatchResultsEffect(s: AppState, results: Option<BatchData>, error: Option<string>)
    ensures var r := Reduce(s, SetBatchResults(results, error));
      && r.batchResults == results
      && (error.Some? && error.value != "" ==> r.batchError == error.value)
      && (error.None? || error == Some("") ==> r.batchError == "")
      && r.file == s.file && Single(r) == Single(s)
  {
  }

  lemma ResetBatchStateEffect(s: AppState)
    ensures var r := Reduce(s, ResetBatchState);
      && Batch(r) == Batch(InitialState)
      && Single(r) == Single(s)
      && Reduce(r, ResetBatchState) == r
  {
  }

  lemma SetSinglePredictionErrorEffect(s: AppState, m: string)
    ensures var r := Reduce(s, SetSinglePredictionError(m));
      && r.singlePredictionError == m && r.prediction.None? && r.probabilities.None?
      && r.initialFormFeatures == s.initialFormFeatures
      && Batch(r) == Batch(s)
  {
  }

  lemma UnrecognisedIsIgnored(s: AppState, tag: string)
    requires tag !in ActionTypeNames
    ensures Reduce(s, Unrecognised(tag)) == s
  {
  }

  // ---------------------------------------------------------------------------
  // Compositions
  // ---------------------------------------------------------------------------

  /** The two resets together restore the initial state, in either order. */
  lemma ResetsRestoreInitialState(s: AppState)
    ensures ReduceAll(s, [ResetSinglePrediction, ResetBatchState]) == InitialState
    ensures ReduceAll(s, [ResetBatchState, ResetSinglePrediction]) == InitialState
  {
    var a: seq<Action> := [ResetSinglePrediction, ResetBatchState];
    var b: seq<Action> := [ResetBatchState, ResetSinglePrediction];
    assert a[1..][1..] == [] && b[1..][1..] == [];
  }

  /** Dispatching one more action folds it onto the state the earlier ones reached. */
  lemma {:induction false} ReduceAllSnoc(s: AppState, actions: seq<Action>, a: Action)
    ensures ReduceAll(s, actions + [a]) == Reduce(ReduceAll(s, actions), a)
    decreases |actions|
  {
    if actions == [] {
      assert [a][1..] == [];
    } else {
      assert (actions + [a])[1..] == actions[1..] + [a];
      ReduceAllSnoc(Reduce(s, actions[0]), actions[1..], a);
    }
  }

  /** Dispatching a sequence of batch actions leaves the single-prediction half alone, and vice versa. */
  lemma {:induction false} HalvesAreIndependent(s: AppState, actions: seq<Action>)
    ensures (forall i :: 0 <= i < |actions| ==> IsBatchAction(actions[i])) ==>
              Single(ReduceAll(s, actions)) == Single(s)
    ensures (forall i :: 0 <= i < |actions| ==> !IsBatchAction(actions[i])) ==>
              Batch(ReduceAll(s, actions)) == Batch(s)
    decreases |actions|
  {
    if actions != [] {
      HalvesAreIndependent(Reduce(s, actions[0]), actions[1..]);
      assert forall i :: 1 <= i < |actions| ==> actions[1..][i - 1] == actions[i];
    }
  }
}
