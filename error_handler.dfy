/** src/api/middlewares/errorHandler.ts: the one response the API sends for an error that
    reaches the end of the middleware chain. */
module ErrorHandler {
  import opened Wrappers
  import opened Text
  import opened Errors

  /** Status code and JSON body `{ error, message }`; a `message` that is `undefined` is
      dropped by `res.json`. */
  datatype Response = Response(status: nat, error: string, message: Option<string>)

  /** `errorHandler(err, req, res, next)`: exactly one response, one of five statuses; a
      client error echoes the message and a server error hides it. */
  function HandleError(e: Error): (r: Response)
    ensures r.status in {400, 401, 403, 404, 500}
    ensures r.status != 500 ==> r.message == e.message
    ensures r.status == 500 ==> r.error == "Internal Server Error" && r.message == Some("An unexpected error occurred")
  {
    if e.cls == ValidationError(ApiErrors) then Response(400, "Validation Error", e.message)
    else if e.cls == AuthenticationError(ApiErrors) then Response(401, "Authentication Error", e.message)
    else if e.cls == NotFoundError(ApiErrors) then Response(404, "Not Found", e.message)
    else if e.message.Some? && Contains(e.message.value, "CORS") then Response(403, "Forbidden", e.message)
    else Response(500, "Internal Server Error", Some("An unexpected error occurred"))
  }

  /** The decision chain in full: each status comes from exactly one condition, the first
      three recognise only the classes of src/utils/apiErrors.ts, client errors echo the
      error's message, and a 500 never reveals it. */
  lemma StatusDecision(e: Error)
    ensures var r := HandleError(e);
      && (r.status == 400 <==> e.cls == ValidationError(ApiErrors))
      && (r.status == 401 <==> e.cls == AuthenticationError(ApiErrors))
      && (r.status == 404 <==> e.cls == NotFoundError(ApiErrors))
      && (r.status == 403 <==>
            && e.cls != ValidationError(ApiErrors) && e.cls != AuthenticationError(ApiErrors)
            && e.cls != NotFoundError(ApiErrors)
            && e.message.Some? && Contains(e.message.value, "CORS"))
      && (r.status == 400 || r.status == 401 || r.status == 403 || r.status == 404 || r.status == 500)
      && (r.status != 500 ==> r.message == e.message)
      && (r.status == 500 ==> r.error == "Internal Server Error" && r.message == Some("An unexpected error occurred"))
  {
  }

  /** The classes of src/utils/errors.ts with the same names are not recognised: they are
      answered 500, or 403 when their message mentions CORS. */
  lemma UtilsErrorsNotRecognised(e: Error)
    requires e.cls.ValidationError? || e.cls.AuthenticationError? || e.cls.NotFoundError? || e.cls.RedisError?
    requires e.cls.origin == UtilsErrors
    requires e.message.Some? ==> !Contains(e.message.value, "CORS")
    ensures HandleError(e).status == 500
  {
  }
}
