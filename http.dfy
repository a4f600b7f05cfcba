/** Values shared by every handler: optional values, the fields of a JSON
    request body, and HTTP responses reduced to a status and a body. */
module Http {

  datatype Option<+T> = None | Some(value: T) {
    function GetOr(default: T): T {
      match this
      case Some(v) => v
      case None => default
    }
  }

  /** One field of a parsed JSON request body. A field that is absent from the
      body is `None` in the body record; `Other` stands for a number, `null`,
      an array or an object, none of which any schema here accepts. */
  datatype Value = Str(s: string) | Bool(b: bool) | Other

  /** The status codes the handlers send: 200, 201, 400, 401, 403, 404 and 500. */
  datatype Status = Ok | Created | BadRequest | Unauthorized | Forbidden | NotFound | ServerError

  datatype Response<+B> = Response(status: Status, body: B)
}
