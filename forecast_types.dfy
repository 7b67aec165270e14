/** The record shapes of frontend/src/components/types.ts, as the training
    service returns them and the dashboard reads them. */
module ForecastTypes {
  import opened JsValues

  /** One row of the model-comparison table. */
  datatype Metric = Metric(model: string, mae: real, rmse: real, r2: real)

  /** `actual?: number | null`: a field that may be missing, null, or a
      number. */
  datatype Actual = Absent | Null | Known(v: real)

  /** The forecast for one date; `actual` is known only for history. */
  datatype Prediction = Prediction(date: string, actual: Actual, predicted: real)

  /** One bar of the per-store chart, e.g. named "Store 1". */
  datatype StoreData = StoreData(name: string, sales: JsNumber)

  /** One slice of the per-department chart, e.g. named "Dept 5". */
  datatype DeptData = DeptData(name: string, value: JsNumber)

  /** One holiday card: the percentage uplift and average holiday sales. */
  datatype HolidayImpact = HolidayImpact(holiday: string, lift: real, sales: real)
}
