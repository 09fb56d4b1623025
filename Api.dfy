/**
 * The JSON shapes the frontend exchanges with the backend, and the outcome of an
 * HTTP request as the frontend's `try`/`catch` sees it.
 */
module Api {
  import opened Wrappers
  import opened JsValues

  /** One record of a JSON array of objects (a row of batch results, a request body). */
  type Row = map<string, Cell>

  /** The entries of the `probabilities` object, in the order the response lists them. */
  type Probabilities = seq<(string, real)>

  /** The body of a single prediction, or the error payload handed to `onPrediction`. */
  datatype PredictionData = PredictionData(
    prediction: Option<string>,
    probabilities: Option<Probabilities>,
    error: Option<string>)

  /** The body of a batch prediction: the annotated rows and the summary object's entries. */
  datatype BatchData = BatchData(results: seq<Row>, summary: seq<(string, int)>)

  /** A `File` chosen in the file input; only its name is observable here. */
  datatype FileHandle = FileHandle(name: string)

  /**
   * How an awaited `axios.post` ends: with the response body, or with a thrown
   * error whose `err.response?.data?.error` is `errorField` (None when absent).
   */
  datatype Outcome<T> = Received(data: T) | Failed(errorField: Option<string>)
}
