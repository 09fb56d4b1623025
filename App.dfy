/**
 * The top-level component: the demo records behind "Test with Bot", the event
 * handlers that dispatch reducer actions (single prediction, file selection,
 * batch prediction and their resets), and the two projections of the state the
 * page renders: probabilities in decreasing order and the summary without its
 * `total_rows` entry.
 */
module App {
  import opened Wrappers
  import opened JsValues
  import opened Api
  import opened Sorting
  import opened AppContext
  import InputForm

  // ---------------------------------------------------------------------------
  // Demo records
  // ---------------------------------------------------------------------------

  /** `demoData`: four traffic records over the form's thirteen fields. */
  const DemoData: seq<map<string, Decimal>> := [
    map[
      "Packet_Length" := Decimal(50, 0), "Duration" := Decimal(1500, 0),
      "Bytes_Sent" := Decimal(3000, 0), "Bytes_Received" := Decimal(0, 0),
      "Flow_Packets/s" := Decimal(20000, 0), "Flow_Bytes/s" := Decimal(1000000, 0),
      "Avg_Packet_Size" := Decimal(50, 0), "Total_Fwd_Packets" := Decimal(30, 0),
      "Total_Bwd_Packets" := Decimal(0, 0), "Fwd_Header_Length" := Decimal(600, 0),
      "Bwd_Header_Length" := Decimal(0, 0), "Sub_Flow_Fwd_Bytes" := Decimal(3000, 0),
      "Sub_Flow_Bwd_Bytes" := Decimal(0, 0)],
    map[
      "Packet_Length" := Decimal(40, 0), "Duration" := Decimal(50, 0),
      "Bytes_Sent" := Decimal(40, 0), "Bytes_Received" := Decimal(40, 0),
      "Flow_Packets/s" := Decimal(20, 0), "Flow_Bytes/s" := Decimal(800, 0),
      "Avg_Packet_Size" := Decimal(40, 0), "Total_Fwd_Packets" := Decimal(1, 0),
      "Total_Bwd_Packets" := Decimal(1, 0), "Fwd_Header_Length" := Decimal(20, 0),
      "Bwd_Header_Length" := Decimal(20, 0), "Sub_Flow_Fwd_Bytes" := Decimal(40, 0),
      "Sub_Flow_Bwd_Bytes" := Decimal(40, 0)],
    map[
      "Packet_Length" := Decimal(1200, 0), "Duration" := Decimal(60000, 0),
      "Bytes_Sent" := Decimal(80000, 0), "Bytes_Received" := Decimal(120000, 0),
      "Flow_Packets/s" := Decimal(3, 0), "Flow_Bytes/s" := Decimal(3333, 0),
      "Avg_Packet_Size" := Decimal(1100, 0), "Total_Fwd_Packets" := Decimal(100, 0),
      "Total_Bwd_Packets" := Decimal(100, 0), "Fwd_Header_Length" := Decimal(2000, 0),
      "Bwd_Header_Length" := Decimal(2000, 0), "Sub_Flow_Fwd_Bytes" := Decimal(80000, 0),
      "Sub_Flow_Bwd_Bytes" := Decimal(120000, 0)],
    map[
      "Packet_Length" := Decimal(0, 0), "Duration" := Decimal(11264210, 0),
      "Bytes_Sent" := Decimal(0, 0), "Bytes_Received" := Decimal(0, 0),
      "Flow_Packets/s" := Decimal(17, 2), "Flow_Bytes/s" := Decimal(0, 0),
      "Avg_Packet_Size" := Decimal(0, 0), "Total_Fwd_Packets" := Decimal(2, 0),
      "Total_Bwd_Packets" := Decimal(0, 0), "Fwd_Header_Length" := Decimal(64, 0),
      "Bwd_Header_Length" := Decimal(0, 0), "Sub_Flow_Fwd_Bytes" := Decimal(0, 0),
      "Sub_Flow_Bwd_Bytes" := Decimal(0, 0)]
  ]

  /** Every demo record has exactly the form's field names as keys. */
  lemma DemoRecordKeys(i: nat)
    requires i < |DemoData|
    ensures forall n :: n in DemoData[i] <==> n in InputForm.FieldNames
  {
  }

  /** `Object.fromEntries(... [key, String(value)])`: the record with every value as text. */
  function Stringified(rec: map<string, Decimal>): (r: map<string, string>)
    ensures r.Keys == rec.Keys
    ensures forall k :: k in rec ==> ParseNumber(r[k]) == Some(DecimalValue(rec[k]))
  {
    forall k | k in rec ensures ParseNumber(NumberText(rec[k])) == Some(DecimalValue(rec[k])) {
      ParseNumberText(rec[k]);
    }
    map k | k in rec :: NumberText(rec[k])
  }

  /** The features "Test with Bot" dispatches for demo record `i`. */
  function BotFeatures(i: nat): (r: map<string, string>)
    requires i < |DemoData|
    ensures r.Keys == DemoData[i].Keys
    ensures forall n :: n in r ==> ParseNumber(r[n]) == Some(DecimalValue(DemoData[i][n]))
  {
    Stringified(DemoData[i])
  }

  /** `Math.floor(random * demoData.length)` for a `Math.random()` value `random`. */
  function RandomIndex(random: real): (i: nat)
    requires 0.0 <= random < 1.0
    ensures i < |DemoData|
    ensures i as real <= random * |DemoData| as real < i as real + 1.0
  {
    (random * |DemoData| as real).Floor
  }

  /**
   * The form the bot features produce shows every field of the record, and
   * submitting it sends each field's demo value as a number.
   */
  lemma BotFeaturesFillForm(i: nat, n: string)
    requires i < |DemoData|
    requires n in InputForm.FieldNames
    ensures n in DemoData[i]
    ensures InputForm.InitialFormData(Some(BotFeatures(i)))[n] == NumberText(DemoData[i][n])
    ensures InputForm.CoerceForSubmit(InputForm.InitialFormData(Some(BotFeatures(i))))[n]
              == Num(DecimalValue(DemoData[i][n]))
  {
    DemoRecordKeys(i);
    InputForm.InitialFeaturesShown(BotFeatures(i), n);
    InputForm.CoerceNumberText(DemoData[i][n]);
  }

  /** The record with the fractional packet rate reaches the request body as 0.17. */
  lemma FractionalDemoValue()
    ensures var body := InputForm.CoerceForSubmit(InputForm.InitialFormData(Some(BotFeatures(3))));
      "Flow_Packets/s" in body && body["Flow_Packets/s"] == Num(0.17)
  {
    BotFeaturesFillForm(3, "Flow_Packets/s");
    FractionalRate();
    HundredthsValue(17);
  }

  lemma FractionalRate()
    ensures DemoData[3]["Flow_Packets/s"] == Decimal(17, 2)
  {
  }

  lemma HundredthsValue(n: int)
    ensures DecimalValue(Decimal(n, 2)) == n as real / 100.0
  {
    assert Pow10(2) == 100 by { assert Pow10(0) == 1; assert Pow10(1) == 10; }
  }

  // ---------------------------------------------------------------------------
  // Projections
  // ---------------------------------------------------------------------------

  /** The comparator `([, a], [, b]) => b - a`, read by its sign. */
  function ByProbabilityDesc(a: (string, real), b: (string, real)): (r: int)
    ensures r < 0 <==> a.1 > b.1
    ensures r > 0 <==> a.1 < b.1
    ensures r == 0 <==> a.1 == b.1
  {
    Sign(b.1 - a.1)
  }

  /** The probability entries in the order they are listed. */
  function DisplayedProbabilities(p: Probabilities): (r: Probabilities)
    ensures multiset(r) == multiset(p)
  {
    InsertionSort(p, ByProbabilityDesc)
  }

  /**
   * The listed probabilities are the response's entries, highest first, and
   * entries with equal probability keep the order of the response.
   */
  lemma DisplayedProbabilitiesOrder(p: Probabilities)
    ensures multiset(DisplayedProbabilities(p)) == multiset(p)
    ensures var r := DisplayedProbabilities(p);
      forall i, j :: 0 <= i < j < |r| ==> r[i].1 >= r[j].1
    ensures forall y :: y in p ==>
      Ties(DisplayedProbabilities(p), y, ByProbabilityDesc) == Ties(p, y, ByProbabilityDesc)
  {
    var r := DisplayedProbabilities(p);
    var key := (e: (string, real)) => -e.1;
    assert forall a, b :: a in p && b in p ==> ByProbabilityDesc(a, b) == Sign(key(a) - key(b));
    KeyComparatorConsistent(ByProbabilityDesc, key, p);
    InsertionSortCorrect(p, ByProbabilityDesc);
    forall e | e in r ensures e in p {
      ElementsOfSorted(p, ByProbabilityDesc, e);
    }
    SortedByKey(r, ByProbabilityDesc, key, p);
  }

  /** `Object.entries(summary).filter(([key]) => key !== 'total_rows')`. */
  function SummaryEntries(summary: seq<(string, int)>): (r: seq<(string, int)>)
    ensures |r| <= |summary|
    ensures forall e :: e in r <==> e in summary && e.0 != "total_rows"
    decreases |summary|
  {
    if summary == [] then []
    else
      var rest := SummaryEntries(summary[1..]);
      assert forall e :: e in summary <==> e == summary[0] || e in summary[1..];
      if summary[0].0 == "total_rows" then rest else [summary[0]] + rest
  }

  /** Filtering keeps the summary's order: entries that are kept appear in the same relative order. */
  lemma {:induction false} SummaryEntriesOrder(a: seq<(string, int)>, b: seq<(string, int)>)
    ensures SummaryEntries(a + b) == SummaryEntries(a) + SummaryEntries(b)
    decreases |a|
  {
    if a == [] {
      assert a + b == b;
    } else {
      assert (a + b)[0] == a[0];
      assert (a + b)[1..] == a[1..] + b;
      SummaryEntriesOrder(a[1..], b);
    }
  }

  /** The message a failed batch request shows: the response's error when it has one, else a fixed text. */
  function BatchErrorMessage(errorField: Option<string>): (m: string)
    ensures m != ""
    ensures errorField.Some? && errorField.value != "" ==> m == errorField.value
    ensures errorField.None? || errorField == Some("") ==> m == "An error occurred during batch prediction."
  {
    OrElse(errorField, "An error occurred during batch prediction.")
  }

  const NoFileMessage := "Please select a file first."

  // ---------------------------------------------------------------------------
  // The component
  // ---------------------------------------------------------------------------

  /**
   * The component with its reducer state and the single-prediction form it
   * renders (with `onPrediction` and without `onReset`). The actions dispatched
   * so far and the files sent to the batch endpoint are a ghost record of its
   * history, kept only to state what each handler does.
   */
  class Controller {
    var state: AppState
    ghost var dispatched: seq<Action>
    ghost var requests: seq<FileHandle>
    const form: InputForm.Form

    /** The state is the reducer folded over every action dispatched so far. */
    ghost predicate Valid()
      reads this
    {
      && state == ReduceAll(InitialState, dispatched)
      && form.hasOnPrediction && !form.hasOnReset
    }

    constructor()
      ensures Valid()
      ensures state == InitialState && dispatched == [] && requests == []
      ensures fresh(form) && form.formData == InputForm.InitialFormData(None)
      ensures !form.isLoading && form.error == ""
    {
      state := InitialState;
      dispatched := [];
      requests := [];
      form := new InputForm.Form(None, true, false);
    }

    /**
     * `dispatch`, followed by the form's effect on `initialFeatures`, which runs
     * when the action replaces the stored features (a new object, or null over
     * an object).
     */
    method Dispatch(a: Action)
      requires Valid()
      modifies this, form
      ensures Valid()
      ensures state == Reduce(old(state), a)
      ensures dispatched == old(dispatched) + [a] && requests == old(requests)
      ensures (state.initialFormFeatures != old(state.initialFormFeatures) || a.SetInitialFormFeatures?) ==>
                form.formData == InputForm.InitialFormData(state.initialFormFeatures)
      ensures !(state.initialFormFeatures != old(state.initialFormFeatures) || a.SetInitialFormFeatures?) ==>
                form.formData == old(form.formData)
      ensures form.isLoading == old(form.isLoading) && form.error == old(form.error)
    {
      ReduceAllSnoc(InitialState, dispatched, a);
      var before := state.initialFormFeatures;
      state := Reduce(state, a);
      dispatched := dispatched + [a];
      if state.initialFormFeatures != before || a.SetInitialFormFeatures? {
        form.OnInitialFeaturesChanged(state.initialFormFeatures);
      }
    }

    /** `handleSinglePredictionResult`: the form's result goes into the state as it came. */
    method HandleSinglePredictionResult(data: PredictionData)
      requires Valid()
      modifies this, form
      ensures Valid()
      ensures dispatched == old(dispatched) + [SetSinglePredictionResult(data)]
      ensures state.prediction == data.prediction && state.probabilities == data.probabilities
      ensures state.singlePredictionError == OrElse(data.error, "")
      ensures state.initialFormFeatures == old(state.initialFormFeatures)
      ensures Batch(state) == Batch(old(state)) && requests == old(requests)
      ensures form.formData == old(form.formData)
      ensures form.isLoading == old(form.isLoading) && form.error == old(form.error)
    {
      Dispatch(SetSinglePredictionResult(PredictionData(data.prediction, data.probabilities, data.error)));
    }

    /** `handleResetSinglePrediction`: clears the form through its ref, then the single-prediction state. */
    method HandleResetSinglePrediction()
      requires Valid()
      modifies this, form
      ensures Valid()
      ensures dispatched == old(dispatched) + [ResetSinglePrediction]
      ensures Single(state) == Single(InitialState)
      ensures Batch(state) == Batch(old(state)) && requests == old(requests)
      ensures form.formData == InputForm.InitialFormData(None) && form.error == ""
      ensures form.isLoading == old(form.isLoading)
    {
      form.ResetFormFields();
      Dispatch(ResetSinglePrediction);
    }

    /** `handleTestWithBot`: loads the demo record `Math.random()` picks; `i` is its index. */
    method HandleTestWithBot(random: real) returns (i: nat)
      requires Valid()
      requires 0.0 <= random < 1.0
      modifies this, form
      ensures Valid()
      ensures i == RandomIndex(random) && i < |DemoData|
      ensures dispatched == old(dispatched) + [SetInitialFormFeatures(BotFeatures(i))]
      ensures state.initialFormFeatures == Some(BotFeatures(i))
      ensures state.prediction.None? && state.probabilities.None? && state.singlePredictionError == ""
      ensures Batch(state) == Batch(old(state)) && requests == old(requests)
      ensures form.formData == InputForm.InitialFormData(Some(BotFeatures(i)))
      ensures form.isLoading == old(form.isLoading) && form.error == old(form.error)
    {
      i := RandomIndex(random);
      Dispatch(SetInitialFormFeatures(BotFeatures(i)));
    }

    /** `handleFileChange`: the first chosen file, or none when the list is empty. */
    method HandleFileChange(files: seq<FileHandle>)
      requires Valid()
      modifies this, form
      ensures Valid()
      ensures state.file == (if |files| > 0 then Some(files[0]) else None)
      ensures state.batchResults.None? && state.batchError == ""
      ensures Single(state) == Single(old(state)) && requests == old(requests)
      ensures form.formData == old(form.formData)
      ensures form.isLoading == old(form.isLoading) && form.error == old(form.error)
    {
      Dispatch(SetFile(if |files| > 0 then Some(files[0]) else None));
    }

    /**
     * `handleBatchPredict` up to the request: without a file only the error is
     * set; with one the previous results and error are cleared and the file is
     * sent, which `sent` returns.
     */
    method StartBatchPredict() returns (sent: Option<FileHandle>)
      requires Valid()
      modifies this, form
      ensures Valid()
      ensures old(state.file).None? ==>
        && sent.None?
        && dispatched == old(dispatched) + [SetBatchError(NoFileMessage)]
        && state == old(state).(batchError := NoFileMessage)
        && requests == old(requests)
      ensures old(state.file).Some? ==>
        && sent == old(state.file)
        && dispatched == old(dispatched) + [SetBatchError(""), SetBatchResults(None, Some(""))]
        && state.file == old(state.file) && state.batchResults.None? && state.batchError == ""
        && Single(state) == Single(old(state))
        && requests == old(requests) + [old(state.file).value]
      ensures form.formData == old(form.formData)
      ensures form.isLoading == old(form.isLoading) && form.error == old(form.error)
    {
      if state.file.None? {
        Dispatch(SetBatchError(NoFileMessage));
        return None;
      }
      sent := state.file;
      Dispatch(SetBatchError(""));
      Dispatch(SetBatchResults(None, Some("")));
      requests := requests + [sent.value];
    }

    /** `handleBatchPredict` after the request: the response's data, or the error message. */
    method FinishBatchPredict(outcome: Outcome<BatchData>)
      requires Valid()
      modifies this, form
      ensures Valid()
      ensures outcome.Received? ==>
        && dispatched == old(dispatched) + [SetBatchResults(Some(outcome.data), None)]
        && state.batchResults == Some(outcome.data) && state.batchError == ""
      ensures outcome.Failed? ==>
        && dispatched == old(dispatched) + [SetBatchResults(None, Some(BatchErrorMessage(outcome.errorField)))]
        && state.batchResults.None? && state.batchError == BatchErrorMessage(outcome.errorField)
      ensures state.file == old(state.file) && Single(state) == Single(old(state))
      ensures requests == old(requests)
      ensures form.formData == old(form.formData)
      ensures form.isLoading == old(form.isLoading) && form.error == old(form.error)
    {
      match outcome
      case Received(data) =>
        Dispatch(SetBatchResults(Some(data), None));
      case Failed(errorField) =>
        Dispatch(SetBatchResults(None, Some(BatchErrorMessage(errorField))));
    }

    /** `handleBatchPredict` as a whole, for a request that ends with `outcome`. */
    method HandleBatchPredict(outcome: Outcome<BatchData>) returns (sent: Option<FileHandle>)
      requires Valid()
      modifies this, form
      ensures Valid()
      ensures old(state.file).None? ==>
        sent.None? && state == old(state).(batchError := NoFileMessage) && requests == old(requests)
      ensures old(state.file).Some? ==>
        && sent == old(state.file) && requests == old(requests) + [sent.value]
        && state.file == old(state.file) && Single(state) == Single(old(state))
        && (outcome.Received? ==> state.batchResults == Some(outcome.data) && state.batchError == "")
        && (outcome.Failed? ==>
              state.batchResults.None? && state.batchError == BatchErrorMessage(outcome.errorField))
      ensures form.formData == old(form.formData)
      ensures form.isLoading == old(form.isLoading) && form.error == old(form.error)
    {
      sent := StartBatchPredict();
      if sent.Some? {
        FinishBatchPredict(outcome);
      }
    }

    /** `handleResetBatch`: the batch half returns to its initial value. */
    method HandleResetBatch()
      requires Valid()
      modifies this, form
      ensures Valid()
      ensures dispatched == old(dispatched) + [ResetBatchState]
      ensures Batch(state) == Batch(InitialState)
      ensures Single(state) == Single(old(state)) && requests == old(requests)
      ensures form.formData == old(form.formData)
      ensures form.isLoading == old(form.isLoading) && form.error == old(form.error)
    {
      Dispatch(ResetBatchState);
    }

    /**
     * A submit of the rendered form: the form's request with `onPrediction`
     * bound to `handleSinglePredictionResult`. A failure shows the same message
     * in the form and in the page, and clears any earlier result.
     */
    method SubmitSinglePrediction(outcome: Outcome<PredictionData>) returns (features: Row)
      requires Valid()
      modifies this, form
      ensures Valid()
      ensures features == InputForm.CoerceForSubmit(old(form.formData))
      ensures !form.isLoading && form.formData == old(form.formData)
      ensures outcome.Received? ==>
        && form.error == ""
        && state.prediction == outcome.data.prediction
        && state.probabilities == outcome.data.probabilities
        && state.singlePredictionError == OrElse(outcome.data.error, "")
      ensures outcome.Failed? ==>
        && form.error == InputForm.SubmitErrorMessage(outcome.errorField)
        && state.singlePredictionError == form.error
        && state.prediction.None? && state.probabilities.None?
      ensures state.initialFormFeatures == old(state.initialFormFeatures)
      ensures Batch(state) == Batch(old(state)) && requests == old(requests)
    {
      var notified;
      features, notified := form.HandleSubmit(outcome);
      if notified.Some? {
        HandleSinglePredictionResult(notified.value);
      }
    }
  }
}
