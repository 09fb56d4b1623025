/**
 * The backend's batch endpoint and its `explain` endpoint. `/predict_batch`
 * checks the upload, reads it as a data frame, requires the model's twenty
 * feature columns, labels every row with the classifier's prediction, numbers
 * the rows with `reset_index`, and answers with the rows and a per-label count.
 * `/explain` names the three features of largest magnitude. Reading the CSV and
 * the scaler/model/label-encoder pipeline are parameters of the model.
 */
module Predict {
  import opened Wrappers
  import opened JsValues
  import opened Api
  import opened Sorting

  /** `feature_names`: the columns the classifier is fed, in this order. */
  const FeatureNames: seq<string> := [
    "Flow Duration", "Total Fwd Packets", "Total Backward Packets",
    "Total Length of Fwd Packets", "Total Length of Bwd Packets", "Fwd Packet Length Max",
    "Fwd Packet Length Min", "Fwd Packet Length Mean", "Fwd Packet Length Std",
    "Bwd Packet Length Max", "Bwd Packet Length Min", "Bwd Packet Length Mean",
    "Bwd Packet Length Std", "Flow Bytes/s", "Flow Packets/s", "Flow IAT Mean",
    "Flow IAT Std", "Flow IAT Max", "Flow IAT Min", "Fwd IAT Total"]

  /** An uploaded part of the multipart request: its file name, when the client sent one, and its bytes. */
  datatype Upload = Upload(filename: Option<string>, content: seq<bv8>)

  /** What `pd.read_csv` yields: the header and one record per data row. */
  datatype Frame = Frame(columns: seq<string>, rows: seq<Row>)

  datatype Body =
    | ErrorBody(error: string)
    | BatchBody(results: seq<Row>, summary: map<string, nat>)

  datatype Response = Response(status: int, body: Body)

  /** The 500 answer of the endpoint's `except` clause. */
  function ServerError(detail: string): (r: Response)
    ensures r.status == 500 && r.body.ErrorBody?
    ensures r.body.error == "Batch processing error: " + detail
  {
    Response(500, ErrorBody("Batch processing error: " + detail))
  }

  predicate EndsWith(s: string, suffix: string) {
    |s| >= |suffix| && s[|s| - |suffix|..] == suffix
  }

  // ---------------------------------------------------------------------------
  // Request validation
  // ---------------------------------------------------------------------------

  /**
   * The checks before the file is read: a `file` part must be present, it must
   * have a non-empty name, and the name must end in `.csv`. A part without a
   * name is falsy and falls through to the file-type error.
   */
  function CheckUpload(files: map<string, Upload>): (r: Result<Upload, Response>)
    ensures "file" !in files ==> r == Failure(Response(400, ErrorBody("No file part")))
    ensures "file" in files && files["file"].filename == Some("") ==>
              r == Failure(Response(400, ErrorBody("No selected file")))
    ensures "file" in files && files["file"].filename != Some("") ==>
              (r.Success? <==> files["file"].filename.Some? && EndsWith(files["file"].filename.value, ".csv"))
    ensures r.Success? ==> "file" in files && r.value == files["file"]
    ensures "file" in files && files["file"].filename != Some("") && r.Failure? ==>
              r.error == Response(400, ErrorBody("Invalid file type"))
  {
    if "file" !in files then Failure(Response(400, ErrorBody("No file part")))
    else
      var file := files["file"];
      if file.filename == Some("") then Failure(Response(400, ErrorBody("No selected file")))
      else if file.filename.Some? && EndsWith(file.filename.value, ".csv") then Success(file)
      else Failure(Response(400, ErrorBody("Invalid file type")))
  }

  /** `all(col in df.columns for col in feature_names)`. */
  predicate HasFeatureColumns(columns: seq<string>): (ok: bool)
    ensures ok <==> forall name :: name in FeatureNames ==> name in columns
    ensures ok ==> |columns| > 0
  {
    assert FeatureNames[0] in FeatureNames;
    forall j :: 0 <= j < |FeatureNames| ==> FeatureNames[j] in columns
  }

  /** `df[feature_names]`: each row's feature values, in `FeatureNames` order. */
  function FeatureMatrix(rows: seq<Row>): (x: seq<seq<Cell>>)
    ensures |x| == |rows|
    ensures forall i :: 0 <= i < |rows| ==> |x[i]| == |FeatureNames|
    ensures forall i, j :: 0 <= i < |rows| && 0 <= j < |FeatureNames| ==> x[i][j] == Get(rows[i], FeatureNames[j])
  {
    seq(|rows|, i requires 0 <= i < |rows| =>
      seq(|FeatureNames|, j requires 0 <= j < |FeatureNames| => Get(rows[i], FeatureNames[j])))
  }

  /** The text of the error pandas raises when a column is assigned a list of the wrong length. */
  function LengthMismatch(values: nat, index: nat): string {
    "Length of values (" + NatText(values) + ") does not match length of index (" + NatText(index) + ")"
  }

  /**
   * The name `reset_index` gives the new column: "index", or "level_0" when the
   * frame already has an "index" column; with both taken it fails.
   */
  function IndexColumn(columns: seq<string>): (r: Result<string, string>)
    ensures r.Success? ==> r.value !in columns && (r.value == "index" || r.value == "level_0")
    ensures "index" !in columns ==> r == Success("index")
    ensures r.Failure? <==> "index" in columns && "level_0" in columns
  {
    if "index" !in columns then Success("index")
    else if "level_0" !in columns then Success("level_0")
    else Failure("cannot insert level_0, already exists")
  }

  // ---------------------------------------------------------------------------
  // The data frame, changed in place
  // ---------------------------------------------------------------------------

  /** A data frame with a default integer index, as read from the CSV. */
  class DataFrame {
    var columns: seq<string>
    var rows: seq<Row>

    constructor(f: Frame)
      ensures columns == f.columns && rows == f.rows
    {
      columns := f.columns;
      rows := f.rows;
    }

    /** `df[name] = values`: a new or replaced column; a list of the wrong length is refused. */
    method SetColumn(name: string, values: seq<Cell>) returns (err: Option<string>)
      modifies this
      ensures |values| != |old(rows)| ==>
        err == Some(LengthMismatch(|values|, |old(rows)|)) && columns == old(columns) && rows == old(rows)
      ensures |values| == |old(rows)| ==>
        && err.None?
        && columns == (if name in old(columns) then old(columns) else old(columns) + [name])
        && |rows| == |old(rows)|
        && forall i :: 0 <= i < |rows| ==> rows[i] == old(rows)[i][name := values[i]]
    {
      if |values| != |rows| {
        return Some(LengthMismatch(|values|, |rows|));
      }
      var updated: seq<Row> := [];
      var i := 0;
      while i < |rows|
        invariant 0 <= i <= |rows| && rows == old(rows)
        invariant |updated| == i
        invariant forall k :: 0 <= k < i ==> updated[k] == rows[k][name := values[k]]
      {
        updated := updated + [rows[i][name := values[i]]];
        i := i + 1;
      }
      rows := updated;
      if name !in columns {
        columns := columns + [name];
      }
      err := None;
    }

    /** `df.reset_index(inplace=True)`: the row numbers become the first column. */
    method ResetIndex() returns (err: Option<string>)
      modifies this
      ensures IndexColumn(old(columns)).Failure? ==>
        err == Some(IndexColumn(old(columns)).error) && columns == old(columns) && rows == old(rows)
      ensures IndexColumn(old(columns)).Success? ==>
        var name := IndexColumn(old(columns)).value;
        && err.None?
        && columns == [name] + old(columns)
        && |rows| == |old(rows)|
        && forall i :: 0 <= i < |rows| ==> rows[i] == old(rows)[i][name := Num(i as real)]
    {
      var column := IndexColumn(columns);
      if column.Failure? {
        return Some(column.error);
      }
      var name := column.value;
      var updated: seq<Row> := [];
      var i := 0;
      while i < |rows|
        invariant 0 <= i <= |rows| && rows == old(rows)
        invariant |updated| == i
        invariant forall k :: 0 <= k < i ==> updated[k] == rows[k][name := Num(k as real)]
      {
        updated := updated + [rows[i][name := Num(i as real)]];
        i := i + 1;
      }
      rows := updated;
      columns := [name] + columns;
      err := None;
    }
  }

  // ---------------------------------------------------------------------------
  // Summary
  // ---------------------------------------------------------------------------

  /** `value_counts().to_dict()`: every label with the number of rows that carry it. */
  function ValueCounts(labels: seq<string>): (m: map<string, nat>)
    ensures forall l :: l in m <==> l in labels
    ensures forall l :: l in m ==> m[l] == multiset(labels)[l]
    decreases |labels|
  {
    if labels == [] then map[]
    else
      var init := labels[..|labels| - 1];
      var last := labels[|labels| - 1];
      assert labels == init + [last];
      Counted(ValueCounts(init), last)
  }

  /** The counts after one more occurrence of `seen`. */
  function Counted(m: map<string, nat>, seen: string): map<string, nat> {
    m[seen := if seen in m then m[seen] + 1 else 1]
  }

  /** The summary object: the label counts, with `total_rows` set to the number of rows. */
  function Summary(labels: seq<string>, rowCount: nat): (s: map<string, nat>)
    ensures "total_rows" in s && s["total_rows"] == rowCount
    ensures forall l :: l in labels && l != "total_rows" ==> l in s && s[l] == multiset(labels)[l]
    ensures forall k :: k in s ==> k == "total_rows" || k in labels
  {
    ValueCounts(labels)["total_rows" := rowCount]
  }

  /** The sum of a map's values. */
  ghost function SumValues(m: map<string, nat>): nat
    decreases |m|
  {
    if m == map[] then 0
    else
      var k :| k in m;
      m[k] + SumValues(m - {k})
  }

  /** The sum does not depend on which key is taken out first. */
  lemma {:induction false} SumRemove(m: map<string, nat>, k: string)
    requires k in m
    ensures SumValues(m) == m[k] + SumValues(m - {k})
    decreases |m|
  {
    var j :| j in m && SumValues(m) == m[j] + SumValues(m - {j});
    if j != k {
      assert |m - {j}| < |m| by { assert m.Keys - {j} < m.Keys; }
      assert |m - {k}| < |m| by { assert m.Keys - {k} < m.Keys; }
      SumRemove(m - {j}, k);
      SumRemove(m - {k}, j);
      assert m - {j} - {k} == m - {k} - {j};
    }
  }

  /** The per-label counts add up to the number of labels. */
  lemma {:induction false} CountsSum(labels: seq<string>)
    ensures SumValues(ValueCounts(labels)) == |labels|
    decreases |labels|
  {
    if labels == [] {
    } else {
      var init := labels[..|labels| - 1];
      var last := labels[|labels| - 1];
      var m := ValueCounts(init);
      var m' := ValueCounts(labels);
      CountsSum(init);
      assert m' - {last} == m - {last};
      SumRemove(m', last);
      if last in m {
        SumRemove(m, last);
      } else {
        assert m - {last} == m;
      }
    }
  }

  /**
   * `summary['total_rows']` is the number of rows; when no label is literally
   * "total_rows", the other entries add up to the same number.
   */
  lemma SummaryTotals(labels: seq<string>)
    ensures Summary(labels, |labels|)["total_rows"] == |labels|
    ensures "total_rows" !in labels ==>
      SumValues(Summary(labels, |labels|) - {"total_rows"}) == Summary(labels, |labels|)["total_rows"]
  {
    if "total_rows" !in labels {
      assert Summary(labels, |labels|) - {"total_rows"} == ValueCounts(labels);
      CountsSum(labels);
    }
  }

  // ---------------------------------------------------------------------------
  // The endpoint
  // ---------------------------------------------------------------------------

  /** A result record: the CSV row with its predicted label and its row number. */
  function AnnotatedRow(row: Row, predicted: string, indexName: string, i: nat): (r: Row)
    ensures r.Keys == row.Keys + {"prediction", indexName}
    ensures r[indexName] == Num(i as real)
    ensures indexName != "prediction" ==> r["prediction"] == Str(predicted)
    ensures forall k :: k in row && k != "prediction" && k != indexName ==> r[k] == row[k]
  {
    row["prediction" := Str(predicted)][indexName := Num(i as real)]
  }

  /**
   * `df['prediction'] = labels` followed by `reset_index`: the records with their
   * labels and row numbers, or the error either step raises.
   */
  function Annotated(frame: Frame, labels: seq<string>): (r: Result<seq<Row>, string>)
    ensures r.Success? ==> |labels| == |frame.rows| == |r.value|
    ensures |labels| != |frame.rows| ==> r == Failure(LengthMismatch(|labels|, |frame.rows|))
  {
    if |labels| != |frame.rows| then Failure(LengthMismatch(|labels|, |frame.rows|))
    else
      var columns := if "prediction" in frame.columns then frame.columns else frame.columns + ["prediction"];
      match IndexColumn(columns)
      case Failure(e) => Failure(e)
      case Success(name) =>
        Success(seq(|frame.rows|, i requires 0 <= i < |frame.rows| => AnnotatedRow(frame.rows[i], labels[i], name, i)))
  }

  /** The answer for a frame read from an accepted upload. */
  function FrameResponse(frame: Frame, classify: seq<seq<Cell>> -> Result<seq<string>, string>): (resp: Response)
    ensures resp.status in {200, 400, 500}
    ensures resp.status == 400 <==> !HasFeatureColumns(frame.columns)
    ensures resp.status == 200 <==> resp.body.BatchBody?
    ensures resp.status == 200 ==> |resp.body.results| == |frame.rows|
  {
    if !HasFeatureColumns(frame.columns) then Response(400, ErrorBody("CSV is missing required columns"))
    else
      match classify(FeatureMatrix(frame.rows))
      case Failure(e) => ServerError(e)
      case Success(labels) =>
        match Annotated(frame, labels)
        case Failure(e) => ServerError(e)
        case Success(results) => Response(200, BatchBody(results, Summary(labels, |frame.rows|)))
  }

  /**
   * The response of `/predict_batch` for the parts `files`, where `readCsv`
   * stands for `pd.read_csv` and `classify` for scaling, predicting and decoding
   * the feature matrix.
   */
  function BatchResponse(
    files: map<string, Upload>,
    readCsv: Upload -> Result<Frame, string>,
    classify: seq<seq<Cell>> -> Result<seq<string>, string>): (resp: Response)
    ensures resp.status in {200, 400, 500}
    ensures resp.status == 200 <==> resp.body.BatchBody?
    ensures resp.status == 200 ==>
      CheckUpload(files).Success? && readCsv(files["file"]).Success?
      && HasFeatureColumns(readCsv(files["file"]).value.columns)
    ensures CheckUpload(files).Failure? ==> resp == CheckUpload(files).error
  {
    match CheckUpload(files)
    case Failure(rejected) => rejected
    case Success(upload) =>
      match readCsv(upload)
      case Failure(e) => ServerError(e)
      case Success(frame) => FrameResponse(frame, classify)
  }

  function LabelCells(labels: seq<string>): (c: seq<Cell>)
    ensures |c| == |labels| && forall i :: 0 <= i < |labels| ==> c[i] == Str(labels[i])
  {
    seq(|labels|, i requires 0 <= i < |labels| => Str(labels[i]))
  }

  /** The label column and the row numbers, written into a frame built from `frame`. */
  method Annotate(frame: Frame, labels: seq<string>) returns (r: Result<seq<Row>, string>)
    ensures r == Annotated(frame, labels)
  {
    var df := new DataFrame(frame);
    var err := df.SetColumn("prediction", LabelCells(labels));
    if err.Some? {
      assert |labels| != |frame.rows|;
      return Failure(err.value);
    }
    var columns := if "prediction" in frame.columns then frame.columns else frame.columns + ["prediction"];
    assert df.columns == columns;
    err := df.ResetIndex();
    if err.Some? {
      assert IndexColumn(columns).Failure?;
      return Failure(err.value);
    }
    var expected := Annotated(frame, labels);
    assert expected.Success?;
    assert |df.rows| == |expected.value|;
    assert forall i :: 0 <= i < |df.rows| ==> df.rows[i] == expected.value[i];
    assert df.rows == expected.value;
    r := Success(df.rows);
  }

  /** `df['prediction'].value_counts().to_dict()`, counted one row at a time. */
  method CountLabels(labels: seq<string>) returns (counts: map<string, nat>)
    ensures counts == ValueCounts(labels)
  {
    counts := map[];
    var i := 0;
    while i < |labels|
      invariant 0 <= i <= |labels|
      invariant counts == ValueCounts(labels[..i])
    {
      CountStep(labels, i);
      counts := Counted(counts, labels[i]);
      i := i + 1;
    }
    assert labels[..|labels|] == labels;
  }

  /** Counting one more label adds one to that label's count. */
  lemma CountStep(labels: seq<string>, i: nat)
    requires i < |labels|
    ensures ValueCounts(labels[..i + 1]) == Counted(ValueCounts(labels[..i]), labels[i])
  {
    assert labels[..i + 1][..i] == labels[..i];
  }

  /** The body of the endpoint's `try`, once the upload is accepted and read. */
  method ProcessFrame(frame: Frame, classify: seq<seq<Cell>> -> Result<seq<string>, string>) returns (resp: Response)
    ensures resp == FrameResponse(frame, classify)
  {
    if !HasFeatureColumns(frame.columns) {
      return Response(400, ErrorBody("CSV is missing required columns"));
    }
    var predicted := classify(FeatureMatrix(frame.rows));
    if predicted.Failure? {
      return ServerError(predicted.error);
    }
    var labels := predicted.value;
    var results := Annotate(frame, labels);
    if results.Failure? {
      return ServerError(results.error);
    }
    var counts := CountLabels(labels);
    var summary := counts["total_rows" := |frame.rows|];
    assert summary == Summary(labels, |frame.rows|);
    resp := Response(200, BatchBody(results.value, summary));
    assert FrameResponse(frame, classify) == resp;
  }

  /** `predict_batch`: the upload checks, reading the CSV, then the frame. */
  method PredictBatch(
    files: map<string, Upload>,
    readCsv: Upload -> Result<Frame, string>,
    classify: seq<seq<Cell>> -> Result<seq<string>, string>) returns (resp: Response)
    ensures resp == BatchResponse(files, readCsv, classify)
  {
    var checked := CheckUpload(files);
    if checked.Failure? {
      return checked.error;
    }
    var read := readCsv(checked.value);
    if read.Failure? {
      return ServerError(read.error);
    }
    resp := ProcessFrame(read.value, classify);
  }

  /** The checks come in order, each answering 400 with its own message before the file is read. */
  lemma ValidationOrder(
    files: map<string, Upload>,
    readCsv: Upload -> Result<Frame, string>,
    classify: seq<seq<Cell>> -> Result<seq<string>, string>)
    ensures "file" !in files ==> BatchResponse(files, readCsv, classify) == Response(400, ErrorBody("No file part"))
    ensures "file" in files && files["file"].filename == Some("") ==>
      BatchResponse(files, readCsv, classify) == Response(400, ErrorBody("No selected file"))
    ensures "file" in files && files["file"].filename != Some("")
            && !(files["file"].filename.Some? && EndsWith(files["file"].filename.value, ".csv")) ==>
      BatchResponse(files, readCsv, classify) == Response(400, ErrorBody("Invalid file type"))
  {
  }

  /** A CSV without every feature column is refused with 400 whatever the classifier would say. */
  lemma MissingColumnsRejected(
    files: map<string, Upload>,
    readCsv: Upload -> Result<Frame, string>,
    classify: seq<seq<Cell>> -> Result<seq<string>, string>)
    requires CheckUpload(files).Success?
    requires readCsv(files["file"]).Success?
    requires exists j :: 0 <= j < |FeatureNames| && FeatureNames[j] !in readCsv(files["file"]).value.columns
    ensures BatchResponse(files, readCsv, classify) == Response(400, ErrorBody("CSV is missing required columns"))
  {
  }

  /**
   * A successful answer has one record per CSV row, each carrying the label the
   * classifier gave that row and its row number, and the summary counts those
   * labels and the rows.
   */
  lemma SuccessfulResponse(
    files: map<string, Upload>,
    readCsv: Upload -> Result<Frame, string>,
    classify: seq<seq<Cell>> -> Result<seq<string>, string>)
    ensures var resp := BatchResponse(files, readCsv, classify);
      resp.status == 200 ==>
        && CheckUpload(files).Success?
        && readCsv(files["file"]).Success?
        && var frame := readCsv(files["file"]).value;
        && HasFeatureColumns(frame.columns)
        && classify(FeatureMatrix(frame.rows)).Success?
        && var labels := classify(FeatureMatrix(frame.rows)).value;
        && resp.body.BatchBody?
        && |resp.body.results| == |frame.rows| == |labels|
        && (forall i :: 0 <= i < |frame.rows| ==>
              && Get(resp.body.results[i], "prediction") == Str(labels[i])
              && (Get(resp.body.results[i], "index") == Num(i as real)
                  || Get(resp.body.results[i], "level_0") == Num(i as real)))
        && resp.body.summary == Summary(labels, |frame.rows|)
  {
  }

  // ---------------------------------------------------------------------------
  // Explain
  // ---------------------------------------------------------------------------

  function Abs(x: real): (r: real)
    ensures r >= 0.0 && (r == x || r == -x)
  {
    if x < 0.0 then -x else x
  }

  /** The order of `sorted(..., key=abs, reverse=True)`: larger magnitude first. */
  function ByMagnitudeDesc(a: (string, real), b: (string, real)): (r: int)
    ensures r < 0 <==> Abs(a.1) > Abs(b.1)
    ensures r > 0 <==> Abs(a.1) < Abs(b.1)
    ensures r == 0 <==> Abs(a.1) == Abs(b.1)
  {
    Sign(Abs(b.1) - Abs(a.1))
  }

  /** The feature items sorted by decreasing magnitude, ties in input order. */
  function RankedFeatures(features: seq<(string, real)>): (r: seq<(string, real)>)
    ensures multiset(r) == multiset(features)
  {
    InsertionSort(features, ByMagnitudeDesc)
  }

  /** `sorted_features[:3]`. */
  function TopFeatures(features: seq<(string, real)>): (r: seq<(string, real)>)
    ensures |r| == if |features| < 3 then |features| else 3
  {
    var ranked := RankedFeatures(features);
    ranked[..if |ranked| < 3 then |ranked| else 3]
  }

  function Keys(s: seq<(string, real)>): set<string> {
    set e | e in s :: e.0
  }

  /** The `explanation` object: each of the top features marked "high". */
  function Explain(features: seq<(string, real)>): (r: map<string, string>)
    ensures forall k :: k in r ==> r[k] == "high"
    ensures forall k :: k in r <==> exists e :: e in TopFeatures(features) && e.0 == k
  {
    map k | k in Keys(TopFeatures(features)) :: "high"
  }

  lemma {:induction false} KeysSize(s: seq<(string, real)>)
    ensures |Keys(s)| <= |s|
    decreases |s|
  {
    if s != [] {
      KeysSize(s[1..]);
      assert Keys(s) <= Keys(s[1..]) + {s[0].0} by {
        forall k | k in Keys(s) ensures k in Keys(s[1..]) + {s[0].0} {
          var e :| e in s && e.0 == k;
          if e != s[0] {
            assert e in s[1..];
          }
        }
      }
      assert |Keys(s[1..]) + {s[0].0}| <= |Keys(s[1..])| + 1;
      SubsetSize(Keys(s), Keys(s[1..]) + {s[0].0});
    }
  }

  lemma SubsetSize(a: set<string>, b: set<string>)
    requires a <= b
    ensures |a| <= |b|
  {
    assert b == a + (b - a);
  }

  /** Every top feature is an item of the request. */
  lemma TopFeatureFromInput(features: seq<(string, real)>, e: (string, real))
    requires e in TopFeatures(features)
    ensures e in features
  {
    var top := TopFeatures(features);
    var q :| 0 <= q < |top| && top[q] == e;
    var ranked := RankedFeatures(features);
    assert ranked[q] == e;
    assert e in multiset(ranked);
  }

  /** At most three features are named, and only features of the request. */
  lemma ExplainChoosesFromInput(features: seq<(string, real)>)
    ensures |Explain(features)| <= 3
    ensures forall k :: k in Explain(features) ==> exists e :: e in features && e.0 == k
  {
    var top := TopFeatures(features);
    KeysSize(top);
    assert Explain(features).Keys == Keys(top);
    forall k | k in Explain(features) ensures exists e :: e in features && e.0 == k {
      var e :| e in top && e.0 == k;
      TopFeatureFromInput(features, e);
    }
  }

  /** The magnitude ordering is a consistent comparator on any feature list. */
  lemma MagnitudeConsistent(features: seq<(string, real)>)
    ensures ConsistentOn(ByMagnitudeDesc, features)
  {
    var key := (e: (string, real)) => -Abs(e.1);
    assert forall a, b :: a in features && b in features ==> ByMagnitudeDesc(a, b) == Sign(key(a) - key(b));
    KeyComparatorConsistent(ByMagnitudeDesc, key, features);
  }

  /**
   * The ranking is by decreasing magnitude and stable: equal magnitudes keep
   * the order of the request.
   */
  lemma RankedByMagnitude(features: seq<(string, real)>)
    ensures var r := RankedFeatures(features);
      forall i, j :: 0 <= i < j < |r| ==> Abs(r[i].1) >= Abs(r[j].1)
    ensures forall y :: y in features ==>
      Ties(RankedFeatures(features), y, ByMagnitudeDesc) == Ties(features, y, ByMagnitudeDesc)
  {
    var r := RankedFeatures(features);
    var key := (e: (string, real)) => -Abs(e.1);
    assert forall a, b :: a in features && b in features ==> ByMagnitudeDesc(a, b) == Sign(key(a) - key(b));
    MagnitudeConsistent(features);
    InsertionSortCorrect(features, ByMagnitudeDesc);
    forall e | e in r ensures e in features {
      ElementsOfSorted(features, ByMagnitudeDesc, e);
    }
    SortedByKey(r, ByMagnitudeDesc, key, features);
  }

  /** A feature left out of the explanation is no larger in magnitude than any feature in it. */
  lemma OmittedAreSmaller(features: seq<(string, real)>, omitted: (string, real), chosen: (string, real))
    requires omitted in features && omitted.0 !in Explain(features)
    requires chosen in TopFeatures(features)
    ensures Abs(omitted.1) <= Abs(chosen.1)
  {
    var r := RankedFeatures(features);
    var top := TopFeatures(features);
    RankedByMagnitude(features);
    assert omitted in multiset(r);
    var p :| 0 <= p < |r| && r[p] == omitted;
    var q :| 0 <= q < |top| && top[q] == chosen;
    if p < |top| {
      assert false;
    }
    assert r[q] == chosen;
  }
}
