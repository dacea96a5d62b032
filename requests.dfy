/**
 * What the Redux thunks of frontend/src/redux/slices make of a failed request
 * (frontend/src/redux/slices/cartSlice.js and authSlice.js alike).
 */
module Requests {
  import opened Wrappers
  import opened JsValues

  /** How a request failed: no response at all, or an error response whose
      body may carry a `message`. */
  datatype Failure = NoResponse | ErrorResponse(message: Option<string>)

  /** `rejectWithValue(error.response.data.message || fallback)`.  Without a
      response, reading `error.response.data` throws inside the catch, and the
      rejected action carries no payload. */
  function RejectValue(f: Failure, fallback: string): (r: Option<string>)
    ensures f.NoResponse? <==> r.None?
    ensures f.ErrorResponse? && Supplied(f.message) ==> r == f.message
    ensures f.ErrorResponse? && !Supplied(f.message) ==> r == Some(fallback)
  {
    match f
    case NoResponse => None
    case ErrorResponse(m) => if Supplied(m) then m else Some(fallback)
  }
}
