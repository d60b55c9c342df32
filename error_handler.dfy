/**
 * What the mobile app shows for an error
 * (KilimoMobileApp/src/utils/errorHandler.ts). A thrown JavaScript value is
 * modelled by the fields those functions look at.
 */
module ErrorHandler {
  import opened Common

  /** `error.response.data`: the body the server sent with an error status. */
  datatype ResponseData = ResponseData(message: Option<string>, error: Option<string>)

  /** `error.response` */
  datatype ErrorResponse = ErrorResponse(status: int, data: Option<ResponseData>)

  /** `error.request`: present when the request left the device. */
  datatype RequestInfo = RequestInfo(hasError: Option<bool>)

  /** A thrown value: null or undefined, a plain string, or an error object. */
  datatype JsError =
    | Nullish
    | Text(text: string)
    | Object(message: Option<string>, code: Option<string>,
             response: Option<ErrorResponse>, request: Option<RequestInfo>)

  const DefaultMessage := "An unexpected error occurred. Please try again."

  /** `error?.response?.data?.message` */
  function DataMessage(e: JsError): Option<string> {
    if e.Object? && e.response.Some? && e.response.value.data.Some? then e.response.value.data.value.message
    else None
  }

  /** `error?.response?.data?.error` */
  function DataError(e: JsError): Option<string> {
    if e.Object? && e.response.Some? && e.response.value.data.Some? then e.response.value.data.value.error
    else None
  }

  /**
   * `formatErrorMessage`: a string is shown as it is; otherwise the first
   * truthy of the error's message, the body's message and the body's error,
   * else the default text.
   */
  function FormatErrorMessage(e: JsError): (r: string)
    ensures e.Text? ==> r == e.text
    ensures e.Object? && Truthy(e.message) ==> r == e.message.value
    ensures !e.Text? && !(e.Object? && Truthy(e.message)) && Truthy(DataMessage(e)) ==> r == DataMessage(e).value
    ensures !e.Text? && !(e.Object? && Truthy(e.message)) && !Truthy(DataMessage(e)) && Truthy(DataError(e))
            ==> r == DataError(e).value
    ensures r == "" ==> e == Text("")
  {
    if e.Text? then e.text
    else if e.Object? && Truthy(e.message) then e.message.value
    else if Truthy(DataMessage(e)) then DataMessage(e).value
    else if Truthy(DataError(e)) then DataError(e).value
    else DefaultMessage
  }

  /** Without any truthy text to show, the default text is shown. */
  lemma FormatErrorMessageDefault(e: JsError)
    requires !e.Text? && !(e.Object? && Truthy(e.message))
    requires !Truthy(DataMessage(e)) && !Truthy(DataError(e))
    ensures FormatErrorMessage(e) == DefaultMessage
  {
  }

  /** `isNetworkError` */
  predicate IsNetworkError(e: JsError) {
    && e.Object?
    && (|| e.message == Some("Network Error")
        || e.code == Some("ECONNABORTED")
        || (e.request.Some? && e.request.value.hasError == Some(true)))
  }

  /** `isAuthError` */
  function IsAuthError(e: JsError): (r: bool)
    ensures r <==> e.Object? && e.response.Some? && e.response.value.status in {401, 403}
  {
    e.Object? && e.response.Some? && (e.response.value.status == 401 || e.response.value.status == 403)
  }
}
