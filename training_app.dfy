/** The page of frontend/src/App.tsx that sends the uploaded file to the
    training service: its state, and what each handler sets and leaves
    alone. A handler runs to completion before the next one starts; the
    service's reply is a parameter of the handler that awaits it. */
module TrainingApp {
  import opened JsValues
  import opened FileUpload
  import opened ForecastTypes
  import opened ForecastService

  /** Shown when a failure carries no message. */
  const FallbackError: string := "Training failed. Please check the backend logs."

  const MissingStoreId: string := "Please enter a store id."

  const MissingDeptId: string := "Please enter a department id."

  /** The component's `useState` fields, plus the log of requests sent to
      the training service. */
  class App {
    var uploadedData: seq<Record>
    var file: Option<File>
    var fileName: string
    var metrics: seq<Metric>
    var predictions: seq<Prediction>
    var storeData: seq<StoreData>
    var deptData: seq<DeptData>
    var holidayImpact: seq<HolidayImpact>
    var forecastHistory: seq<Prediction>
    var forecast: seq<Prediction>
    var arimaMetrics: Option<Metric>
    var showDashboard: bool
    var loading: bool
    var error: Option<string>
    var scope: Scope
    var storeId: string
    var deptId: string
    var requests: seq<seq<Field>>

    /** Between handlers nothing is loading, and the file name is the
        picked file's name, or empty with no data when no file is picked. */
    predicate Valid()
      reads this`loading, this`file, this`fileName, this`uploadedData
    {
      && !loading
      && (file.Some? ==> fileName == file.value.name)
      && (file.None? ==> fileName == "" && uploadedData == [])
    }

    /** The initial state. */
    constructor ()
      ensures Valid()
      ensures uploadedData == [] && file.None? && fileName == ""
      ensures metrics == [] && predictions == [] && storeData == [] && deptData == []
      ensures holidayImpact == [] && forecastHistory == [] && forecast == [] && arimaMetrics.None?
      ensures !showDashboard && error.None?
      ensures scope == Overall && storeId == "" && deptId == ""
      ensures requests == []
    {
      uploadedData := [];
      file := None;
      fileName := "";
      metrics := [];
      predictions := [];
      storeData := [];
      deptData := [];
      holidayImpact := [];
      forecastHistory := [];
      forecast := [];
      arimaMetrics := None;
      showDashboard := false;
      loading := false;
      error := None;
      scope := Overall;
      storeId := "";
      deptId := "";
      requests := [];
    }

    /** `handleFileUpload(data, file)` */
    method HandleFileUpload(data: seq<Record>, picked: File)
      requires Valid()
      modifies this`uploadedData, this`file, this`fileName
      ensures Valid()
      ensures uploadedData == data && file == Some(picked) && fileName == picked.name
    {
      uploadedData := data;
      file := Some(picked);
      fileName := picked.name;
    }

    /** The scope selector and the two id inputs. */
    method SelectScope(value: Scope)
      requires Valid()
      modifies this`scope
      ensures Valid() && scope == value
    {
      scope := value;
    }

    method EditStoreId(value: string)
      requires Valid()
      modifies this`storeId
      ensures Valid() && storeId == value
    {
      storeId := value;
    }

    method EditDeptId(value: string)
      requires Valid()
      modifies this`deptId
      ensures Valid() && deptId == value
    {
      deptId := value;
    }

    /** The options the handler passes to `trainModel`: the id of the
        chosen scope only, as `Number(id)`, and a horizon of 12. */
    function Options(toNumber: string -> JsNumber): (options: TrainOptions)
      reads this`scope, this`storeId, this`deptId
      ensures options.scope == scope
      ensures options.storeId.Some? <==> scope == Store
      ensures options.deptId.Some? <==> scope == Department
      ensures options.horizon == Some(Num(DefaultHorizon as real))
    {
      TrainOptions(
        scope,
        if scope == Store then Some(toNumber(storeId)) else None,
        if scope == Department then Some(toNumber(deptId)) else None,
        Some(Num(DefaultHorizon as real)))
    }

    /** Whether the handler stops at validation, with the message it shows. */
    function ValidationError(): (r: Option<string>)
      reads this`scope, this`storeId, this`deptId
      ensures r == Some(MissingStoreId) <==> scope == Store && storeId == ""
      ensures r == Some(MissingDeptId) <==> scope == Department && deptId == ""
      ensures r.None? <==> !(scope == Store && storeId == "") && !(scope == Department && deptId == "")
    {
      if scope == Store && storeId == "" then Some(MissingStoreId)
      else if scope == Department && deptId == "" then Some(MissingDeptId)
      else None
    }

    /** `handleGeneratePredictions()`. Without a file nothing happens; a
        missing id for the chosen scope shows its message and sends
        nothing; otherwise one request goes out, and its result fills the
        dashboard state or its error message is shown. */
    method HandleGeneratePredictions(toNumber: string -> JsNumber, show: real -> string, reply: Result<Response, string>)
      requires Valid()
      modifies this`loading, this`error, this`requests
      modifies this`metrics, this`predictions, this`storeData, this`deptData, this`holidayImpact
      modifies this`forecastHistory, this`forecast, this`arimaMetrics, this`showDashboard
      ensures Valid()
      ensures old(file).None? ==>
                && unchanged(this`loading, this`error, this`requests, this`metrics, this`predictions, this`storeData)
                && unchanged(this`deptData, this`holidayImpact, this`forecastHistory, this`forecast)
                && unchanged(this`arimaMetrics, this`showDashboard)
      ensures old(file).Some? && old(ValidationError()).Some? ==>
                && error == old(ValidationError())
                && requests == old(requests)
                && unchanged(this`metrics, this`predictions, this`storeData, this`deptData, this`holidayImpact)
                && unchanged(this`forecastHistory, this`forecast, this`arimaMetrics, this`showDashboard)
      ensures old(file).Some? && old(ValidationError()).None? ==>
                requests == old(requests) + [FormFields(old(file).value, old(Options(toNumber)), show)]
      ensures old(file).Some? && old(ValidationError()).None? && TrainOutcome(reply).Success? ==>
                ShowsResult(TrainOutcome(reply).value) && error.None?
      ensures old(file).Some? && old(ValidationError()).None? && TrainOutcome(reply).Failure? ==>
                && error.Some? && error.value != ""
                && (TrainOutcome(reply).error != "" ==> error == Some(TrainOutcome(reply).error))
                && (TrainOutcome(reply).error == "" ==> error == Some(FallbackError))
                && unchanged(this`metrics, this`predictions, this`storeData, this`deptData, this`holidayImpact)
                && unchanged(this`forecastHistory, this`forecast, this`arimaMetrics, this`showDashboard)
    {
      if file.None? {
        return;
      }
      var invalid := ValidationError();
      if invalid.Some? {
        Reject(invalid.value);
      } else {
        Generate(toNumber, show, reply);
      }
    }

    /** A missing id: `loading` and `error` are reset as on entry, the
        message is shown, and the early return passes through `finally`. */
    method Reject(message: string)
      modifies this`loading, this`error
      ensures !loading && error == Some(message)
    {
      loading := true;
      error := None;
      error := Some(message);
      loading := false;
    }

    /** The `try` block once validation passed: loading while the request
        is out, the error cleared, then the request and its outcome. */
    method Generate(toNumber: string -> JsNumber, show: real -> string, reply: Result<Response, string>)
      requires file.Some? && ValidationError().None?
      modifies this`loading, this`error, this`requests
      modifies this`metrics, this`predictions, this`storeData, this`deptData, this`holidayImpact
      modifies this`forecastHistory, this`forecast, this`arimaMetrics, this`showDashboard
      ensures !loading
      ensures requests == old(requests) + [FormFields(old(file).value, old(Options(toNumber)), show)]
      ensures TrainOutcome(reply).Success? ==> ShowsResult(TrainOutcome(reply).value) && error.None?
      ensures TrainOutcome(reply).Failure? ==>
                && error.Some? && error.value != ""
                && (TrainOutcome(reply).error != "" ==> error == Some(TrainOutcome(reply).error))
                && (TrainOutcome(reply).error == "" ==> error == Some(FallbackError))
                && unchanged(this`metrics, this`predictions, this`storeData, this`deptData, this`holidayImpact)
                && unchanged(this`forecastHistory, this`forecast, this`arimaMetrics, this`showDashboard)
    {
      loading := true;
      error := None;
      Submit(toNumber, show, reply);
      loading := false;
    }

    /** The request and what its outcome sets, once validation passed. */
    method Submit(toNumber: string -> JsNumber, show: real -> string, reply: Result<Response, string>)
      requires file.Some? && ValidationError().None?
      modifies this`error, this`requests
      modifies this`metrics, this`predictions, this`storeData, this`deptData, this`holidayImpact
      modifies this`forecastHistory, this`forecast, this`arimaMetrics, this`showDashboard
      ensures requests == old(requests) + [FormFields(old(file).value, old(Options(toNumber)), show)]
      ensures TrainOutcome(reply).Success? ==> ShowsResult(TrainOutcome(reply).value) && error == old(error)
      ensures TrainOutcome(reply).Failure? ==>
                && error.Some? && error.value != ""
                && (TrainOutcome(reply).error != "" ==> error == Some(TrainOutcome(reply).error))
                && (TrainOutcome(reply).error == "" ==> error == Some(FallbackError))
                && unchanged(this`metrics, this`predictions, this`storeData, this`deptData, this`holidayImpact)
                && unchanged(this`forecastHistory, this`forecast, this`arimaMetrics, this`showDashboard)
    {
      var request, outcome := TrainModel(file.value, Options(toNumber), show, reply);
      requests := requests + [request];
      if outcome.Success? {
        ShowResult(outcome.value);
      } else {
        ShowFailure(outcome.error);
      }
    }

    /** The dashboard shows the result: each of its lists, or [] when it
        is absent, the ARIMA metrics when present, and the dashboard open. */
    predicate ShowsResult(result: TrainResult)
      reads this`metrics, this`predictions, this`storeData, this`deptData, this`holidayImpact
      reads this`forecastHistory, this`forecast, this`arimaMetrics, this`showDashboard
    {
      && metrics == result.metrics.GetOr([])
      && predictions == result.predictions.GetOr([])
      && storeData == result.storeData.GetOr([])
      && deptData == result.deptData.GetOr([])
      && holidayImpact == result.holidayImpact.GetOr([])
      && forecastHistory == result.forecastHistory.GetOr([])
      && forecast == result.forecast.GetOr([])
      && arimaMetrics == result.arimaMetrics
      && showDashboard
    }

    /** The `try` block after the await: every list defaults to empty,
        and the dashboard is shown. */
    method ShowResult(result: TrainResult)
      modifies this`metrics, this`predictions, this`storeData, this`deptData, this`holidayImpact
      modifies this`forecastHistory, this`forecast, this`arimaMetrics, this`showDashboard
      ensures ShowsResult(result)
    {
      metrics := result.metrics.GetOr([]);
      predictions := result.predictions.GetOr([]);
      storeData := result.storeData.GetOr([]);
      deptData := result.deptData.GetOr([]);
      holidayImpact := result.holidayImpact.GetOr([]);
      forecastHistory := result.forecastHistory.GetOr([]);
      forecast := result.forecast.GetOr([]);
      arimaMetrics := result.arimaMetrics;
      showDashboard := true;
    }

    /** The `catch` block: the error's message, or the fallback when it
        has none. */
    method ShowFailure(message: string)
      modifies this`error
      ensures error.Some? && error.value != ""
      ensures message != "" ==> error == Some(message)
      ensures message == "" ==> error == Some(FallbackError)
    {
      if message != "" {
        error := Some(message);
      } else {
        error := Some(FallbackError);
      }
    }

    /** `handleClear()`: forgets the file, its data and the results, and
        leaves the chart data, the scope inputs and the error. */
    method HandleClear()
      requires Valid()
      modifies this`uploadedData, this`file, this`fileName, this`predictions, this`metrics
      modifies this`forecastHistory, this`forecast, this`arimaMetrics, this`showDashboard
      ensures Valid()
      ensures uploadedData == [] && file.None? && fileName == ""
      ensures predictions == [] && metrics == [] && forecastHistory == [] && forecast == []
      ensures arimaMetrics.None? && !showDashboard
    {
      uploadedData := [];
      file := None;
      fileName := "";
      predictions := [];
      metrics := [];
      forecastHistory := [];
      forecast := [];
      arimaMetrics := None;
      showDashboard := false;
    }

    /** The back arrow: hides the dashboard and keeps everything else. */
    method HandleBack()
      requires Valid()
      modifies this`showDashboard
      ensures Valid() && !showDashboard
    {
      showDashboard := false;
    }

    /** The generate button is rendered on the upload page once a file
        name is known. */
    function GenerateButtonShown(): (shown: bool)
      reads this`showDashboard, this`loading, this`file, this`fileName, this`uploadedData
      ensures shown ==> !showDashboard && fileName != ""
      ensures Valid() && shown ==> file.Some?
    {
      !showDashboard && fileName != ""
    }
  }

}
