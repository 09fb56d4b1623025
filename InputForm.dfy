/**
 * The single-prediction form: a fixed schema of thirteen numeric fields, the form
 * values derived from optional initial features, per-field edits, reset, and the
 * submit flow that coerces every value with `Number(value) || 0`.
 */
module InputForm {
  import opened Wrappers
  import opened JsValues
  import opened Api

  datatype FieldDescriptor = FieldDescriptor(
    name: string, labelText: string, fieldType: string, required: bool, defaultValue: string)

  /** `formFieldsConfig`: thirteen required numeric fields, all defaulting to the empty text. */
  const FormFieldsConfig: seq<FieldDescriptor> := [
    FieldDescriptor("Packet_Length", "Packet Length", "number", true, ""),
    FieldDescriptor("Duration", "Duration", "number", true, ""),
    FieldDescriptor("Bytes_Sent", "Bytes Sent", "number", true, ""),
    FieldDescriptor("Bytes_Received", "Bytes Received", "number", true, ""),
    FieldDescriptor("Flow_Packets/s", "Flow Packets/s", "number", true, ""),
    FieldDescriptor("Flow_Bytes/s", "Flow Bytes/s", "number", true, ""),
    FieldDescriptor("Avg_Packet_Size", "Avg Packet Size", "number", true, ""),
    FieldDescriptor("Total_Fwd_Packets", "Total Fwd Packets", "number", true, ""),
    FieldDescriptor("Total_Bwd_Packets", "Total Bwd Packets", "number", true, ""),
    FieldDescriptor("Fwd_Header_Length", "Fwd Header Length", "number", true, ""),
    FieldDescriptor("Bwd_Header_Length", "Bwd Header Length", "number", true, ""),
    FieldDescriptor("Sub_Flow_Fwd_Bytes", "Sub Flow Fwd Bytes", "number", true, ""),
    FieldDescriptor("Sub_Flow_Bwd_Bytes", "Sub Flow Bwd Bytes", "number", true, "")
  ]

  /** The schema's field names, in order. */
  const FieldNames: seq<string> := [
    "Packet_Length", "Duration", "Bytes_Sent", "Bytes_Received", "Flow_Packets/s",
    "Flow_Bytes/s", "Avg_Packet_Size", "Total_Fwd_Packets", "Total_Bwd_Packets",
    "Fwd_Header_Length", "Bwd_Header_Length", "Sub_Flow_Fwd_Bytes", "Sub_Flow_Bwd_Bytes"]

  /** The schema lists `FieldNames`, each a required number field defaulting to "". */
  lemma SchemaShape()
    ensures |FormFieldsConfig| == |FieldNames| == 13
    ensures forall j :: 0 <= j < 13 ==> FormFieldsConfig[j].name == FieldNames[j]
    ensures forall j :: 0 <= j < 13 ==>
      FormFieldsConfig[j].fieldType == "number" && FormFieldsConfig[j].defaultValue == ""
  {
  }

  /** The schema's field names are pairwise distinct. */
  lemma FieldNamesDistinct()
    ensures forall i, j :: 0 <= i < j < |FieldNames| ==> FieldNames[i] != FieldNames[j]
  {
  }

  /** Index of the first field named `name` in `config`, or `|config|` when there is none. */
  function FindIndex(config: seq<FieldDescriptor>, name: string): (i: nat)
    ensures i <= |config|
    ensures forall j :: 0 <= j < i ==> config[j].name != name
    ensures i < |config| ==> config[i].name == name
  {
    if config == [] then 0
    else if config[0].name == name then 0
    else 1 + FindIndex(config[1..], name)
  }

  /** `formFieldsConfig.find(f => f.name === name)`: the first field with that name. */
  function FindField(name: string): (r: Option<FieldDescriptor>)
    ensures r.Some? ==> r.value in FormFieldsConfig && r.value.name == name
  {
    var i := FindIndex(FormFieldsConfig, name);
    if i < |FormFieldsConfig| then Some(FormFieldsConfig[i]) else None
  }

  /** Looking up a schema field by its name finds that field; any other name finds nothing. */
  lemma FindSchemaField(j: nat)
    requires j < |FormFieldsConfig|
    ensures FindField(FormFieldsConfig[j].name) == Some(FormFieldsConfig[j])
  {
    SchemaShape();
    FieldNamesDistinct();
  }

  lemma FindOtherName(name: string)
    requires name !in FieldNames
    ensures FindField(name).None?
  {
    SchemaShape();
    var i := FindIndex(FormFieldsConfig, name);
    if i < |FormFieldsConfig| {
      assert FieldNames[i] == name;
    }
  }

  /** Every field of the schema is numeric. */
  lemma AllFieldsNumeric(name: string)
    requires name in FieldNames
    ensures FindField(name).Some? && FindField(name).value.fieldType == "number"
  {
    SchemaShape();
    var j :| 0 <= j < |FieldNames| && FieldNames[j] == name;
    FindSchemaField(j);
  }

  // ---------------------------------------------------------------------------
  // Initial form data
  // ---------------------------------------------------------------------------

  /** A field's initial text: the override when one is given for it, else its default. */
  function InitialValue(field: FieldDescriptor, features: Option<map<string, string>>): (v: string)
    ensures features.Some? && field.name in features.value ==> v == features.value[field.name]
    ensures field in FormFieldsConfig && !(features.Some? && field.name in features.value) ==> v == ""
  {
    SchemaShape();
    if features.Some? && field.name in features.value then features.value[field.name] else field.defaultValue
  }

  /** The form values for the first `i` fields of the schema, filled in schema order. */
  function FormDataUpTo(i: nat, features: Option<map<string, string>>): (r: map<string, string>)
    requires i <= |FormFieldsConfig|
    ensures i > 0 ==> FormFieldsConfig[i - 1].name in r
  {
    if i == 0 then map[]
    else FormDataUpTo(i - 1, features)[FormFieldsConfig[i - 1].name := InitialValue(FormFieldsConfig[i - 1], features)]
  }

  /** The first `i` fields hold their initial values, and nothing else is filled. */
  lemma {:induction false} FormDataUpToFields(i: nat, features: Option<map<string, string>>)
    requires i <= |FormFieldsConfig|
    ensures var r := FormDataUpTo(i, features);
      && (forall n :: n in r ==> n in FieldNames[..i])
      && (forall j :: 0 <= j < i ==>
           FormFieldsConfig[j].name in r && r[FormFieldsConfig[j].name] == InitialValue(FormFieldsConfig[j], features))
  {
    if i > 0 {
      FormDataUpToFields(i - 1, features);
      FormDataUpToStep(i - 1, FormDataUpTo(i - 1, features), features);
    }
  }

  /** Adding field `i` to the values of the fields before it keeps theirs and adds its own. */
  lemma {:induction false} FormDataUpToStep(i: nat, prev: map<string, string>, features: Option<map<string, string>>)
    requires i < |FormFieldsConfig|
    requires forall n :: n in prev ==> n in FieldNames[..i]
    requires forall j :: 0 <= j < i ==>
      FormFieldsConfig[j].name in prev && prev[FormFieldsConfig[j].name] == InitialValue(FormFieldsConfig[j], features)
    ensures var r := prev[FormFieldsConfig[i].name := InitialValue(FormFieldsConfig[i], features)];
      && (forall n :: n in r ==> n in FieldNames[..i + 1])
      && (forall j :: 0 <= j < i + 1 ==>
           FormFieldsConfig[j].name in r && r[FormFieldsConfig[j].name] == InitialValue(FormFieldsConfig[j], features))
  {
    SchemaShape();
    FieldNamesDistinct();
    var r := prev[FormFieldsConfig[i].name := InitialValue(FormFieldsConfig[i], features)];
    forall n | n in r ensures n in FieldNames[..i + 1] {
      if n != FieldNames[i] {
        assert n in FieldNames[..i];
        var j :| 0 <= j < i && FieldNames[..i][j] == n;
        assert FieldNames[..i + 1][j] == n;
      } else {
        assert FieldNames[..i + 1][i] == n;
      }
    }
    forall j | 0 <= j < i
      ensures FormFieldsConfig[j].name in r && r[FormFieldsConfig[j].name] == InitialValue(FormFieldsConfig[j], features)
    {
      assert FieldNames[j] != FieldNames[i];
    }
  }

  /**
   * The form values for optional initial features: exactly the schema's fields,
   * each holding its override or its default.
   */
  function InitialFormData(features: Option<map<string, string>>): (r: map<string, string>)
    ensures forall n :: n in r <==> n in FieldNames
    ensures forall j :: 0 <= j < |FormFieldsConfig| ==>
      FormFieldsConfig[j].name in r && r[FormFieldsConfig[j].name] == InitialValue(FormFieldsConfig[j], features)
  {
    SchemaShape();
    assert FieldNames[..|FormFieldsConfig|] == FieldNames;
    FormDataUpToFields(|FormFieldsConfig|, features);
    FormDataUpTo(|FormFieldsConfig|, features)
  }

  /** `generateInitialFormData`: fills an accumulator field by field. */
  method GenerateInitialFormData(features: Option<map<string, string>>) returns (acc: map<string, string>)
    ensures acc == InitialFormData(features)
  {
    acc := map[];
    var i := 0;
    while i < |FormFieldsConfig|
      invariant 0 <= i <= |FormFieldsConfig|
      invariant acc == FormDataUpTo(i, features)
    {
      var field := FormFieldsConfig[i];
      acc := acc[field.name := InitialValue(field, features)];
      i := i + 1;
    }
  }

  /** Overrides reach exactly their own fields; every other field is empty. */
  lemma InitialFeaturesShown(features: map<string, string>, name: string)
    requires name in FieldNames
    ensures name in features ==> InitialFormData(Some(features))[name] == features[name]
    ensures name !in features ==> InitialFormData(Some(features))[name] == ""
    ensures InitialFormData(None)[name] == ""
  {
    SchemaShape();
    var j :| 0 <= j < |FieldNames| && FieldNames[j] == name;
    assert InitialFormData(Some(features))[name] == InitialValue(FormFieldsConfig[j], Some(features));
    assert InitialFormData(None)[name] == InitialValue(FormFieldsConfig[j], None);
  }

  // ---------------------------------------------------------------------------
  // Edits and coercion
  // ---------------------------------------------------------------------------

  /** `handleChange` on a field the form holds changes that value and nothing else. */
  lemma UpdateKeepsOtherFields(form: map<string, string>, name: string, value: string)
    requires name in form
    ensures form[name := value].Keys == form.Keys
    ensures form[name := value][name] == value
    ensures forall k :: k in form && k != name ==> form[name := value][k] == form[k]
  {
  }

  /** `Number(text) || 0`: a number that `Number` fails to read, or reads as zero, becomes 0. */
  function Coerce(text: string): (v: real)
    ensures v == 0.0 <==> ParseNumber(text) == None || ParseNumber(text) == Some(0.0)
    ensures v != 0.0 ==> ParseNumber(text) == Some(v)
  {
    match ParseNumber(text)
    case Some(x) => if x != 0.0 then x else 0.0
    case None => 0.0
  }

  /** One entry of the body's `features` object: a schema (numeric) field's text coerced, any other text kept. */
  function CoerceEntry(key: string, value: string): (c: Cell)
    ensures key in FieldNames ==> c == Num(Coerce(value))
    ensures key !in FieldNames ==> c == Str(value)
  {
    var field := FindField(key);
    var c := if field.Some? && field.value.fieldType == "number" then Num(Coerce(value)) else Str(value);
    if key in FieldNames then AllFieldsNumeric(key); c
    else FindOtherName(key); c
  }

  /**
   * The body's `features` object: every schema (numeric) field coerced to a number;
   * a key outside the schema keeps its text.
   */
  function CoerceForSubmit(form: map<string, string>): (r: Row)
    ensures r.Keys == form.Keys
    ensures forall k :: k in form && k in FieldNames ==> r[k] == Num(Coerce(form[k]))
    ensures forall k :: k in form && k !in FieldNames ==> r[k] == Str(form[k])
  {
    map k | k in form :: CoerceEntry(k, form[k])
  }

  lemma CoerceHundred()
    ensures Coerce("100") == 100.0
  {
    assert "100"[..2] == "10" && "10"[..1] == "1" && "1"[..0] == "";
    assert DigitsValue("1") == 1;
    assert DigitsValue("10") == 10;
    assert DigitsValue("100") == 100;
    assert IndexOf("100", '.') == 3;
    assert "100"[..3] == "100";
    assert UnsignedValue("100") == Some(100.0);
  }

  /** Typing "100" into an empty form's first field sends 100 for it and 0 for every other field. */
  lemma SubmitAfterTyping()
    ensures var body := CoerceForSubmit(InitialFormData(None)["Packet_Length" := "100"]);
      && (forall n :: n in body <==> n in FieldNames)
      && body["Packet_Length"] == Num(100.0)
      && (forall n :: n in FieldNames && n != "Packet_Length" ==> body[n] == Num(0.0))
  {
    var form := InitialFormData(None)["Packet_Length" := "100"];
    assert "Packet_Length" in FieldNames;
    CoerceHundred();
    forall n | n in FieldNames && n != "Packet_Length" ensures form[n] == "" {
      InitialFeaturesShown(map[], n);
    }
    assert Coerce("") == 0.0;
  }

  /** A number's own text coerces back to it. */
  lemma CoerceNumberText(d: Decimal)
    ensures Coerce(NumberText(d)) == DecimalValue(d)
  {
    ParseNumberText(d);
  }

  /** The message a failed submit shows: the response's error when it has one, else a fixed text. */
  function SubmitErrorMessage(errorField: Option<string>): (m: string)
    ensures m != ""
    ensures errorField.Some? && errorField.value != "" ==> m == errorField.value
    ensures errorField.None? || errorField == Some("") ==> m == "Error submitting data."
  {
    OrElse(errorField, "Error submitting data.")
  }

  // ---------------------------------------------------------------------------
  // The component
  // ---------------------------------------------------------------------------

  /** The form component's state, and the handlers that update it. */
  class Form {
    var formData: map<string, string>
    var isLoading: bool
    var error: string
    /** Whether the parent passed `onPrediction` and `onReset`. */
    const hasOnPrediction: bool
    const hasOnReset: bool

    constructor(initialFeatures: Option<map<string, string>>, hasOnPrediction: bool, hasOnReset: bool)
      ensures formData == InitialFormData(initialFeatures)
      ensures !isLoading && error == ""
      ensures this.hasOnPrediction == hasOnPrediction && this.hasOnReset == hasOnReset
    {
      var data := GenerateInitialFormData(initialFeatures);
      formData := data;
      isLoading := false;
      error := "";
      this.hasOnPrediction := hasOnPrediction;
      this.hasOnReset := hasOnReset;
    }

    /** The effect that runs when the `initialFeatures` prop is replaced. */
    method OnInitialFeaturesChanged(features: Option<map<string, string>>)
      modifies this
      ensures formData == InitialFormData(features)
      ensures isLoading == old(isLoading) && error == old(error)
    {
      formData := GenerateInitialFormData(features);
    }

    /** `resetFormFields`, called by the parent through the ref. */
    method ResetFormFields()
      modifies this
      ensures formData == InitialFormData(None) && error == ""
      ensures isLoading == old(isLoading)
    {
      formData := GenerateInitialFormData(None);
      error := "";
    }

    /** `setFormFields`, called by the parent through the ref. */
    method SetFormFields(features: Option<map<string, string>>)
      modifies this
      ensures formData == InitialFormData(features)
      ensures isLoading == old(isLoading) && error == old(error)
    {
      formData := GenerateInitialFormData(features);
    }

    /** `handleChange`: the input named `name` now reads `value`. */
    method HandleChange(name: string, value: string)
      modifies this
      ensures formData == old(formData)[name := value]
      ensures name in old(formData) ==> formData.Keys == old(formData.Keys)
      ensures isLoading == old(isLoading) && error == old(error)
    {
      formData := formData[name := value];
    }

    /** "Clear Fields": whatever was typed, the fields are back to their defaults and the error is cleared. */
    method HandleFormResetInternal() returns (calledOnReset: bool)
      modifies this
      ensures formData == InitialFormData(None) && error == ""
      ensures isLoading == old(isLoading)
      ensures calledOnReset == hasOnReset
    {
      formData := GenerateInitialFormData(None);
      error := "";
      calledOnReset := hasOnReset;
    }

    /** The synchronous start of `handleSubmit`: loading, no error, and the coerced request body. */
    method BeginSubmit() returns (features: Row)
      modifies this
      ensures isLoading && error == ""
      ensures formData == old(formData)
      ensures features == CoerceForSubmit(formData)
    {
      isLoading := true;
      error := "";
      features := CoerceForSubmit(formData);
    }

    /**
     * The end of `handleSubmit`, once the request has settled: what `onPrediction`
     * receives (None when there is no `onPrediction`), and loading is over.
     */
    method FinishSubmit(outcome: Outcome<PredictionData>) returns (notified: Option<PredictionData>)
      modifies this
      ensures !isLoading && formData == old(formData)
      ensures outcome.Received? ==> error == old(error)
      ensures outcome.Received? ==> notified == (if hasOnPrediction then Some(outcome.data) else None)
      ensures outcome.Failed? ==> error == SubmitErrorMessage(outcome.errorField)
      ensures outcome.Failed? ==>
        notified == (if hasOnPrediction then Some(PredictionData(None, None, Some(error))) else None)
    {
      match outcome {
        case Received(data) =>
          notified := if hasOnPrediction then Some(data) else None;
        case Failed(errorField) =>
          var message := SubmitErrorMessage(errorField);
          error := message;
          notified := if hasOnPrediction then Some(PredictionData(None, None, Some(message))) else None;
      }
      isLoading := false;
    }

    /** `handleSubmit` from start to finish, for a request that ends with `outcome`. */
    method HandleSubmit(outcome: Outcome<PredictionData>) returns (features: Row, notified: Option<PredictionData>)
      modifies this
      ensures features == CoerceForSubmit(old(formData))
      ensures !isLoading && formData == old(formData)
      ensures outcome.Received? ==> error == "" && notified == (if hasOnPrediction then Some(outcome.data) else None)
      ensures outcome.Failed? ==> error == SubmitErrorMessage(outcome.errorField) && error != ""
      ensures outcome.Failed? && hasOnPrediction ==> notified == Some(PredictionData(None, None, Some(error)))
    {
      features := BeginSubmit();
      notified := FinishSubmit(outcome);
    }
  }
}
