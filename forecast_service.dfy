/** The client of the training service in
    frontend/src/utils/forecastService.ts: the multipart fields `trainModel`
    sends, the error it raises on a failed reply, and the error
    `fetchTrainResults` raises. The network is a parameter: the reply the
    service gives, or the message of a request that never got one. */
module ForecastService {
  import opened JsValues
  import opened JsStrings
  import opened ForecastTypes

  /** A file the user picked; its bytes are not modelled. */
  datatype File = File(name: string)

  /** `"overall" | "store" | "department"` */
  datatype Scope = Overall | Store | Department

  function ScopeName(scope: Scope): (r: string)
    ensures r in {"overall", "store", "department"}
  {
    match scope
    case Overall => "overall"
    case Store => "store"
    case Department => "department"
  }

  /** `TrainOptions`; an absent optional field is None. */
  datatype TrainOptions = TrainOptions(
    scope: Scope,
    storeId: Option<JsNumber>,
    deptId: Option<JsNumber>,
    horizon: Option<JsNumber>)

  /** The horizon sent when none is given. */
  const DefaultHorizon: int := 12

  /** Numbers beyond this magnitude print in exponent notation. */
  const ExponentThreshold: int := 1_000_000_000_000_000_000_000

  /** `String(n)`: an integer below 10^21 in magnitude prints as its
      decimal digits, with a minus sign when negative, and NaN as "NaN";
      every other number prints by `show`, which is not modelled. The
      digits read back as the number. */
  function NumberText(n: JsNumber, show: real -> string): (text: string)
    ensures n.NaN? ==> text == "NaN"
    ensures n.Num? && n.v == n.v.Floor as real && 0 <= n.v.Floor < ExponentThreshold ==>
              |text| > 0 && (forall k :: 0 <= k < |text| ==> '0' <= text[k] <= '9') && DigitsValue(text) == n.v.Floor
    ensures n.Num? && n.v == n.v.Floor as real && -ExponentThreshold < n.v.Floor < 0 ==>
              |text| > 1 && text[0] == '-' && DigitsValue(text[1..]) == -n.v.Floor
  {
    match n
    case NaN => "NaN"
    case Num(v) =>
      var m := v.Floor;
      if v == m as real && -ExponentThreshold < m < ExponentThreshold then IntegerText(m) else show(v)
  }

  /** The decimal text of an integer, after a minus sign when negative. */
  function IntegerText(m: int): (text: string)
    ensures m >= 0 ==> |text| > 0 && (forall k :: 0 <= k < |text| ==> '0' <= text[k] <= '9') && DigitsValue(text) == m
    ensures m < 0 ==> |text| > 1 && text[0] == '-' && DigitsValue(text[1..]) == -m
  {
    if m >= 0 then
      DigitsValueOfNatToString(m);
      NatToString(m)
    else
      DigitsValueOfNatToString(-m);
      var text := "-" + NatToString(-m);
      assert text[1..] == NatToString(-m);
      text
  }

  /** A value of a multipart form: the file itself or text. */
  datatype FieldValue = Blob(file: File) | Text(text: string)

  /** One `formData.append(name, value)`. */
  datatype Field = Field(name: string, value: FieldValue)

  /** The fields `trainModel` appends, in order: the file, then text fields
      for the scope, the horizon and each id that is given. */
  function FormFields(file: File, options: TrainOptions, show: real -> string): (fields: seq<Field>)
    ensures |fields| == 3 + (if options.storeId.Some? then 1 else 0) + (if options.deptId.Some? then 1 else 0)
    ensures fields[0] == Field("file", Blob(file)) && fields[1].name == "scope" && fields[2].name == "horizon"
    ensures forall i :: 1 <= i < |fields| ==> fields[i].value.Text?
  {
    [Field("file", Blob(file)),
     Field("scope", Text(ScopeName(options.scope))),
     Field("horizon", Text(NumberText(options.horizon.GetOr(Num(DefaultHorizon as real)), show)))]
    + (if options.storeId.Some? then [Field("store_id", Text(NumberText(options.storeId.value, show)))] else [])
    + (if options.deptId.Some? then [Field("dept_id", Text(NumberText(options.deptId.value, show)))] else [])
  }

  function Names(fields: seq<Field>): seq<string> {
    seq(|fields|, i requires 0 <= i < |fields| => fields[i].name)
  }

  /** The building of `formData` by successive appends. */
  method BuildFormData(file: File, options: TrainOptions, show: real -> string) returns (formData: seq<Field>)
    ensures formData == FormFields(file, options, show)
  {
    formData := [];
    formData := formData + [Field("file", Blob(file))];
    formData := formData + [Field("scope", Text(ScopeName(options.scope)))];
    var horizon := if options.horizon.Some? then options.horizon.value else Num(DefaultHorizon as real);
    formData := formData + [Field("horizon", Text(NumberText(horizon, show)))];
    if options.storeId.Some? {
      formData := formData + [Field("store_id", Text(NumberText(options.storeId.value, show)))];
    }
    if options.deptId.Some? {
      formData := formData + [Field("dept_id", Text(NumberText(options.deptId.value, show)))];
    }
  }

  /** `String(12)` is "12". */
  lemma DefaultHorizonText(show: real -> string)
    ensures NumberText(Num(DefaultHorizon as real), show) == "12"
  {
    assert NatToString(1) == "1";
  }

  /** The field order is file, scope, horizon, then store_id and dept_id;
      store_id is sent exactly when a store id is given and dept_id exactly
      when a department id is; the horizon defaults to "12". */
  lemma FormFieldsOrder(file: File, options: TrainOptions, show: real -> string)
    ensures var fields := FormFields(file, options, show);
            && Names(fields) == ["file", "scope", "horizon"]
                                + (if options.storeId.Some? then ["store_id"] else [])
                                + (if options.deptId.Some? then ["dept_id"] else [])
            && fields[0].value == Blob(file)
            && fields[1].value == Text(ScopeName(options.scope))
            && (options.horizon.None? ==> fields[2].value == Text("12"))
            && ("store_id" in Names(fields) <==> options.storeId.Some?)
            && ("dept_id" in Names(fields) <==> options.deptId.Some?)
  {
    var fields := FormFields(file, options, show);
    DefaultHorizonText(show);
    assert Names(fields) == ["file", "scope", "horizon"]
                            + (if options.storeId.Some? then ["store_id"] else [])
                            + (if options.deptId.Some? then ["dept_id"] else []);
  }

  /** The message of the error `trainModel` throws when it gives up. */
  const TrainingFailed: string := "Training failed"

  /** The reply of the service: its status and, when readable, its body as
      text and as the decoded result. */
  datatype Response = Response(ok: bool, text: Option<string>, json: Result<TrainResult, string>)

  /** The object the training service returns; a missing member is None. */
  datatype TrainResult = TrainResult(
    metrics: Option<seq<Metric>>,
    predictions: Option<seq<Prediction>>,
    storeData: Option<seq<StoreData>>,
    deptData: Option<seq<DeptData>>,
    holidayImpact: Option<seq<HolidayImpact>>,
    forecastHistory: Option<seq<Prediction>>,
    forecast: Option<seq<Prediction>>,
    arimaMetrics: Option<Metric>)

  /** The message of the error thrown on a failed reply: the body when
      it reads and is not empty, "Training failed" otherwise. */
  function FailureText(text: Option<string>): (details: string)
    ensures details != ""
    ensures text.Some? && text.value != "" ==> details == text.value
    ensures text.None? || text.value == "" ==> details == TrainingFailed
  {
    if text.Some? && text.value != "" then text.value else TrainingFailed
  }

  /** `details`, reassigned when the body reads and is not empty. */
  method FailureDetails(text: Option<string>) returns (details: string)
    ensures details == FailureText(text)
  {
    details := TrainingFailed;
    if text.Some? {
      if text.value != "" {
        details := text.value;
      }
    }
  }

  /** What `trainModel` resolves to, or the message it rejects with. */
  function TrainOutcome(reply: Result<Response, string>): (outcome: Result<TrainResult, string>)
    ensures reply.Failure? ==> outcome == Failure(reply.error)
    ensures reply.Success? && !reply.value.ok ==> outcome.Failure? && outcome.error == FailureText(reply.value.text)
    ensures reply.Success? && reply.value.ok ==> outcome == reply.value.json
  {
    match reply
    case Failure(message) => Failure(message)
    case Success(response) => if response.ok then response.json else Failure(FailureText(response.text))
  }

  /** `trainModel(file, options)`: the request it sends and its outcome,
      given the service's reply or the message of a failed request. */
  method TrainModel(file: File, options: TrainOptions, show: real -> string, reply: Result<Response, string>)
    returns (request: seq<Field>, outcome: Result<TrainResult, string>)
    ensures request == FormFields(file, options, show)
    ensures outcome == TrainOutcome(reply)
  {
    request := BuildFormData(file, options, show);
    if reply.Failure? {
      return request, Failure(reply.error);
    }
    var response := reply.value;
    if !response.ok {
      var details := FailureDetails(response.text);
      return request, Failure(details);
    }
    outcome := response.json;
  }

  /** `fetchTrainResults()`: a failed reply always yields "Training
      failed", whatever its body. */
  method FetchTrainResults(reply: Result<Response, string>) returns (outcome: Result<TrainResult, string>)
    ensures reply.Failure? ==> outcome == Failure(reply.error)
    ensures reply.Success? && !reply.value.ok ==> outcome == Failure(TrainingFailed)
    ensures reply.Success? && reply.value.ok ==> outcome == reply.value.json
  {
    if reply.Failure? {
      return Failure(reply.error);
    }
    if !reply.value.ok {
      return Failure(TrainingFailed);
    }
    outcome := reply.value.json;
  }
}
