/** The page of src/App.tsx that forecasts in the browser: the uploaded
    records, the generated weekly predictions, the shown file name and
    whether the dashboard is open. A handler runs to completion before the
    next one starts. */
module MockApp {
  import opened JsValues
  import opened FileUpload
  import opened Predictions

  /** The name shown for any uploaded file. */
  const MockFileName: string := "walmart_sales_data.csv"

  /** The component's `useState` fields. */
  class App {
    var uploadedData: seq<Record>
    var predictions: seq<WeekPrediction>
    var fileName: string
    var showDashboard: bool

    /** Either nothing is uploaded (no name, no data, no predictions, the
        upload page), or the fixed file name is shown. */
    predicate Valid()
      reads this`uploadedData, this`predictions, this`fileName, this`showDashboard
    {
      && (fileName == "" || fileName == MockFileName)
      && (fileName == "" ==> uploadedData == [] && predictions == [] && !showDashboard)
    }

    /** The initial state. */
    constructor ()
      ensures Valid()
      ensures uploadedData == [] && predictions == [] && fileName == "" && !showDashboard
    {
      uploadedData := [];
      predictions := [];
      fileName := "";
      showDashboard := false;
    }

    /** `handleFileUpload(data)`: keeps the records and shows the fixed
        name, whatever the file was called. */
    method HandleFileUpload(data: seq<Record>)
      requires Valid()
      modifies this`uploadedData, this`fileName
      ensures Valid()
      ensures uploadedData == data && fileName == MockFileName
    {
      uploadedData := data;
      fileName := MockFileName;
    }

    /** The reader's `onload` followed by the upload handler: a text with
        no non-blank line throws before the handler is called, so nothing
        changes; otherwise the parsed records are uploaded. */
    method UploadText(text: string)
      requires Valid()
      modifies this`uploadedData, this`fileName
      ensures Valid()
      ensures Parse(text).Failure? ==> unchanged(this`uploadedData, this`fileName)
      ensures Parse(text).Success? ==> uploadedData == Parse(text).value && fileName == MockFileName
    {
      var parsed := Parse(text);
      if parsed.Success? {
        HandleFileUpload(parsed.value);
      }
    }

    /** `handleGeneratePredictions()`: with no records nothing happens;
        otherwise the predictions of the records are stored and the
        dashboard opens. */
    method HandleGeneratePredictions(parseFloat: string -> JsNumber, perturbation: nat -> real)
      requires Valid()
      modifies this`predictions, this`showDashboard
      ensures Valid()
      ensures old(uploadedData) == [] ==> unchanged(this`predictions, this`showDashboard)
      ensures old(uploadedData) != [] ==>
                && predictions == GeneratedPredictions(uploadedData, parseFloat, perturbation)
                && |predictions| <= MaxWeeks
                && showDashboard
    {
      if |uploadedData| > 0 {
        var generated := GeneratePredictions(uploadedData, parseFloat, perturbation);
        GeneratedDates(uploadedData, parseFloat, perturbation);
        predictions := generated;
        showDashboard := true;
      }
    }

    /** `handleClear()`: back to the initial state. */
    method HandleClear()
      requires Valid()
      modifies this
      ensures Valid()
      ensures uploadedData == [] && predictions == [] && fileName == "" && !showDashboard
    {
      uploadedData := [];
      fileName := "";
      predictions := [];
      showDashboard := false;
    }

    /** `handleBack()`: closes the dashboard and keeps the data. */
    method HandleBack()
      requires Valid()
      modifies this`showDashboard
      ensures Valid() && !showDashboard
    {
      showDashboard := false;
    }

    /** The generate button is rendered on the upload page once the name
        is shown. */
    function GenerateButtonShown(): (shown: bool)
      reads this
      ensures Valid() ==> (shown <==> !showDashboard && fileName == MockFileName)
      ensures Valid() && uploadedData != [] && !showDashboard ==> shown
    {
      !showDashboard && fileName != ""
    }
  }
}
