/**
 * The request/response surface shared by the route handlers: a parsed JSON
 * request body and a JSON response with its status code.
 */
module Http {
  import opened Js

  /** What `await request.json()` settles to: a parse failure rejects. */
  datatype RequestBody = Malformed | Parsed(value: JsValue)

  /** `NextResponse.json(body, { status })`; the status defaults to 200. */
  datatype Response = Response(status: nat, body: JsValue)

  const StatusOk: nat := 200
  const StatusBadRequest: nat := 400
  const StatusUnauthorized: nat := 401
  const StatusConflict: nat := 409
  const StatusServerError: nat := 500

  /** The message every handler's outermost `catch` answers with. */
  const InternalServerError := "Erro interno do servidor"

  /** A response whose body is `{ error: message }`. */
  function Error(status: nat, message: string): (r: Response)
    ensures r.status == status && GetProperty(r.body, "error") == Str(message)
    ensures r.body.Object? && !HasKey(r.body.entries, "message")
  {
    Response(status, Object([("error", Str(message))]))
  }
}
