/** The response envelope every API reply uses, and the two helpers the
    middleware installs on each response: `jsonSuccess` and `jsonError`. */
module ResponseMiddleware {
  import opened Common

  datatype ApiError = ApiError(message: string, code: int)

  /** `{ success, data, error? }`; `data` is null in error replies. */
  datatype ApiResponse<D> = ApiResponse(success: bool, data: Option<D>, error: Option<ApiError>)

  const DefaultSuccessStatus := 200
  const DefaultErrorStatus := 400

  /** An envelope agrees with the status it is sent with: a success carries
      data and no error; a failure carries no data and an error whose code
      is the HTTP status. */
  predicate Agrees<D>(status: int, response: ApiResponse<D>)
  {
    if response.success then response.data.Some? && response.error.None?
    else response.data.None? && response.error.Some? && response.error.value.code == status
  }

  /** The envelope `jsonSuccess(data)` sends. */
  function SuccessEnvelope<D>(data: D): (r: ApiResponse<D>)
    ensures r.success && r.data == Some(data)
    ensures forall status :: Agrees(status, r)
  {
    ApiResponse(true, Some(data), None)
  }

  /** The envelope `jsonError(message, statusCode)` sends. */
  function ErrorEnvelope<D>(message: string, statusCode: int): (r: ApiResponse<D>)
    ensures !r.success && r.error.Some? && r.error.value.message == message
    ensures Agrees(statusCode, r)
    ensures forall other :: other != statusCode ==> !Agrees(other, r)
  {
    ApiResponse(false, None, Some(ApiError(message, statusCode)))
  }

  /** An Express response as the helpers use it: a status that `status()`
      sets and a body that `json()` sends. */
  class Response<D> {
    var statusCode: int
    var body: Option<ApiResponse<D>>

    /** A fresh response has Express's default status and nothing sent. */
    constructor ()
      ensures statusCode == DefaultSuccessStatus && body == None
    {
      statusCode := DefaultSuccessStatus;
      body := None;
    }

    /** `res.status(code)`. */
    method Status(code: int)
      modifies this
      ensures statusCode == code && body == old(body)
    {
      statusCode := code;
    }

    /** `res.json(response)`. */
    method Json(response: ApiResponse<D>)
      modifies this
      ensures body == Some(response) && statusCode == old(statusCode)
    {
      body := Some(response);
    }

    /** `res.jsonSuccess(data, statusCode = 200)`. */
    method JsonSuccess(data: D, statusCode: int := DefaultSuccessStatus)
      modifies this
      ensures this.statusCode == statusCode && body == Some(SuccessEnvelope(data))
      ensures Agrees(this.statusCode, body.value)
    {
      Status(statusCode);
      Json(SuccessEnvelope(data));
    }

    /** `res.jsonError(error, statusCode = 400)`: the status it sends is its
        own argument whatever `status()` was called with before, and the
        error code in the body is that same status. */
    method JsonError(error: string, statusCode: int := DefaultErrorStatus)
      modifies this
      ensures this.statusCode == statusCode && body == Some(ErrorEnvelope(error, statusCode))
      ensures Agrees(this.statusCode, body.value)
    {
      Status(statusCode);
      Json(ErrorEnvelope(error, statusCode));
    }
  }

  /** `res.status(s).jsonError(message)`: the status sent is the helper's
      default 400, not `s`. */
  method StatusThenJsonError<D>(res: Response<D>, status: int, message: string)
    modifies res
    ensures res.statusCode == DefaultErrorStatus
    ensures res.body == Some(ErrorEnvelope(message, DefaultErrorStatus))
  {
    res.Status(status);
    res.JsonError(message);
  }
}
