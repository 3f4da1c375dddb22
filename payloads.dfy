/** The JSON payloads of the Prometheus range-query API as far as the model
    needs them, and the two canned payloads of querying/response_messages.py. */
module Payloads {
  import opened Common

  /** One time series of a result matrix. `metric` is the flattened label set
      (`str(metric)` in the source); `values` are its timestamps. */
  datatype Series = Series(metric: string, values: seq<int>)

  /** The `data` member of a response: `{"resultType": ..., "result": [...]}`. */
  datatype Matrix = Matrix(resultType: string, result: seq<Series>)

  /** One cleaned series as the analysis reads it back from finalData.json:
      its label set and its `(start, duration)` runs. */
  datatype Alert = Alert(metric: map<string, string>, values: seq<Range>)

  /** A decoded response body; an absent key is `None`. */
  datatype Payload = Payload(status: Option<string>, errorType: Option<string>,
                             error: Option<string>, data: Option<Matrix>)

  const ExceededMaximumText: string :=
    "exceeded maximum resolution of 11,000 points per timeseries. Try decreasing the query resolution (?step=XX)"

  /** MESSAGE_EXCEEDED_MAXIMUM: the answer that makes the executor bisect a query. */
  const ExceededMaximum: Payload :=
    Payload(Some("error"), Some("bad_data"), Some(ExceededMaximumText), None)

  /** EMPTY_RESULTS: a successful answer with no series. */
  const EmptyResults: Payload :=
    Payload(Some("success"), None, None, Some(Matrix("matrix", [])))
}
