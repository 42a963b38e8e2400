/**
 * The JSON-RPC 2.0 response envelope of the server's API
 * (api/JsonRpcResponse.java), with the checks of section 5 of the
 * JSON-RPC 2.0 specification made by its constructor.
 */
module JsonRpcResponse {
  import opened Base

  const JSON_RPC_VERSION: string := "2.0"

  /** A JSON value as far as the checks here look at it. */
  datatype Value = Str(s: string) | Num(n: int) | Bool(b: bool) | Structured(text: string)

  datatype ErrorObject = ErrorObject(code: int, message: Option<string>)

  /** A response; an absent member is None. */
  datatype Response = Response(result: Option<Value>, error: Option<ErrorObject>, id: Option<Value>)

  predicate IdAllowed(id: Option<Value>)
  {
    id.None? || id.value.Str? || id.value.Num?
  }

  /**
   * The full constructor: the version must be "2.0", exactly one of result
   * and error must be present, and the id must be absent, a string or a
   * number. The checks run in that order.
   */
  function NewResponse(jsonrpc: Option<string>, result: Option<Value>, error: Option<ErrorObject>, id: Option<Value>)
    : (r: Result<Response, Exception>)
    ensures r.Success? <==> jsonrpc == Some(JSON_RPC_VERSION) && result.Some? != error.Some? && IdAllowed(id)
    ensures r.Success? ==> r.value == Response(result, error, id)
    ensures jsonrpc != Some(JSON_RPC_VERSION) ==>
      r == Failure(IllegalArgument("Invalid jsonrpc value " + (if jsonrpc.Some? then jsonrpc.value else "null")))
    ensures jsonrpc == Some(JSON_RPC_VERSION) && result.Some? == error.Some? ==>
      r == Failure(IllegalArgument("Exactly one of result or error must be given"))
    ensures jsonrpc == Some(JSON_RPC_VERSION) && result.Some? != error.Some? && !IdAllowed(id) ==>
      r == Failure(IllegalArgument("id must be string or number"))
  {
    if jsonrpc != Some(JSON_RPC_VERSION) then
      Failure(IllegalArgument("Invalid jsonrpc value " + (if jsonrpc.Some? then jsonrpc.value else "null")))
    else if result.Some? == error.Some? then
      Failure(IllegalArgument("Exactly one of result or error must be given"))
    else if !IdAllowed(id) then
      Failure(IllegalArgument("id must be string or number"))
    else Success(Response(result, error, id))
  }

  /** A successful response: the result with no error. */
  function SuccessResponse(result: Value, id: Option<Value>): Result<Response, Exception>
  {
    NewResponse(Some(JSON_RPC_VERSION), Some(result), None, id)
  }

  /** An error response: the error with no result. */
  function ErrorResponse(error: ErrorObject, id: Option<Value>): Result<Response, Exception>
  {
    NewResponse(Some(JSON_RPC_VERSION), None, Some(error), id)
  }

  predicate IsSuccessful(r: Response)
  {
    r.result.Some?
  }

  /**
   * The two convenience constructors build a response exactly when the id
   * is allowed, and the result one is successful while the error one is
   * not.
   */
  lemma ConvenienceConstructors(result: Value, error: ErrorObject, id: Option<Value>)
    ensures SuccessResponse(result, id).Success? <==> IdAllowed(id)
    ensures ErrorResponse(error, id).Success? <==> IdAllowed(id)
    ensures SuccessResponse(result, id).Success? ==> IsSuccessful(SuccessResponse(result, id).value)
    ensures ErrorResponse(error, id).Success? ==> !IsSuccessful(ErrorResponse(error, id).value)
  {
  }

  /** For every constructed response, success means "has a result" and failure means "has an error". */
  lemma SuccessfulIffNoError(jsonrpc: Option<string>, result: Option<Value>, error: Option<ErrorObject>, id: Option<Value>)
    requires NewResponse(jsonrpc, result, error, id).Success?
    ensures IsSuccessful(NewResponse(jsonrpc, result, error, id).value) <==> error.None?
    ensures IsSuccessful(NewResponse(jsonrpc, result, error, id).value) <==> result.Some?
  {
  }
}
