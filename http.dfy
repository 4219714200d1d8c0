/** Values shared by the request handlers: an optional value, the handlers'
    responses (one constructor per HTTP status the handlers return), and the
    session check every authenticated handler starts with. */
module Http {

  datatype Option<+T> = None | Some(value: T)

  /** A JSON object with each value in its `str()` form: a request body, a
      query-string argument map, a stored document or a query filter. */
  type Doc = map<string, string>

  /** A handler's reply. `Ok` is status 200, `Created` status 201; the error
      constructors carry the text of the JSON body's "error" member and stand
      for statuses 400, 401 and 404. */
  datatype Response<+T> =
    | Ok(value: T)
    | Created(value: T)
    | BadRequest(msg: string)
    | Unauthorized(msg: string)
    | NotFound(msg: string)

  /** `session.get("username")` is truthy: present and not the empty string. */
  predicate Authenticated(session: Option<string>)
  {
    session.Some? && session.value != ""
  }
}
