/** The terminal Express middleware: `errorHandler` turns whatever a handler
    passed to `next` into a failure envelope, and `notFound` answers requests
    that no route matched. */
module ErrorMiddleware {
  import opened Js
  import opened Http

  /** What Express gets back from the error handler: a sent response, or an
      exception thrown inside the handler itself. */
  datatype Handled<D> = Sent(response: Response<D>) | Threw(reason: string)

  const Development := "development"

  /** `err.status || 500`: the error's own status when it carries a non-zero
      one, 500 otherwise; never 0. */
  function FallbackStatus(err: Error): (status: int)
    ensures status != 0
    ensures status == 500 || err.status == Some(status)
    ensures err.status.Some? && err.status.value != 0 ==> status == err.status.value
  {
    if err.status.Some? && err.status.value != 0 then err.status.value else 500
  }

  /** `err.message || 'Internal Server Error'`: the error's own message unless
      it is empty; never empty. */
  function FallbackMessage(err: Error): (message: string)
    ensures message != ""
    ensures err.message != "" ==> message == err.message
    ensures message == err.message || message == "Internal Server Error"
  {
    if err.message != "" then err.message else "Internal Server Error"
  }

  /** `errorHandler(err, req, res, next)` with `process.env.NODE_ENV` as
      `nodeEnv`. The tests run in order and the first that matches decides the
      response; `Object.keys(err.keyPattern)[0]` on an empty key pattern is
      `undefined`, whose `charAt` throws. */
  function ErrorHandler<D>(err: Error, nodeEnv: string): (h: Handled<D>)
    ensures err.name == "ValidationError" ==> h == Sent(Failure(400, Join(err.errors, ", ")))
    ensures err.name != "ValidationError" && err.code == Some(11000) ==>
      if err.keyPattern == [] then h.Threw?
      else h == Sent(Failure(400, Capitalize(err.keyPattern[0]) + " already exists"))
    ensures err.name != "ValidationError" && err.code != Some(11000) ==>
      && (err.name == "CastError" ==> h == Sent(Failure(400, "Invalid ID format")))
      && (err.name == "JsonWebTokenError" ==> h == Sent(Failure(401, "Invalid token")))
      && (err.name == "TokenExpiredError" ==> h == Sent(Failure(401, "Token expired")))
    ensures (err.name !in {"ValidationError", "CastError", "JsonWebTokenError", "TokenExpiredError"}
             && err.code != Some(11000)) ==>
      && h.Sent?
      && h.response.status == FallbackStatus(err)
      && h.response.body.message == Some(FallbackMessage(err))
      && h.response.body.stack == (if nodeEnv == Development then err.stack else None)
    ensures h.Threw? <==> err.name != "ValidationError" && err.code == Some(11000) && err.keyPattern == []
    ensures h.Sent? ==>
      && !h.response.body.success && h.response.body.message.Some?
      && h.response.body.data.None? && h.response.body.count.None?
    ensures h.Sent? && h.response.body.stack.Some? ==> nodeEnv == Development
  {
    if err.name == "ValidationError" then
      Sent(Failure(400, Join(err.errors, ", ")))
    else if err.code == Some(11000) then
      if err.keyPattern == [] then
        Threw("TypeError: Cannot read properties of undefined (reading 'charAt')")
      else
        var field := err.keyPattern[0];
        Sent(Failure(400, Capitalize(field) + " already exists"))
    else if err.name == "CastError" then
      Sent(Failure(400, "Invalid ID format"))
    else if err.name == "JsonWebTokenError" then
      Sent(Failure(401, "Invalid token"))
    else if err.name == "TokenExpiredError" then
      Sent(Failure(401, "Token expired"))
    else
      var stack := if nodeEnv == Development then err.stack else None;
      Sent(Response(FallbackStatus(err), Body(false, Some(FallbackMessage(err)), None, None, stack)))
  }

  /** A validation failure reports every per-field message, not just the first. */
  lemma ValidationMessageListsEvery<D>(err: Error, nodeEnv: string, k: nat)
    requires err.name == "ValidationError" && k < |err.errors|
    ensures var h := ErrorHandler<D>(err, nodeEnv);
      h.Sent? && h.response.status == 400 && Contains(h.response.body.message.value, err.errors[k])
  {
    JoinContainsEvery(err.errors, ", ", k);
  }

  /** A duplicate key on a lower-case field name is reported with that name capitalised. */
  lemma DuplicateKeyNamesField<D>(field: string, nodeEnv: string)
    requires field != [] && 'a' <= field[0] <= 'z'
    ensures var h := ErrorHandler<D>(DuplicateKeyError(field), nodeEnv);
      && h.Sent? && h.response.status == 400
      && var m := h.response.body.message.value;
      && 'A' <= m[0] <= 'Z' && LowerChar(m[0]) == field[0]
      && m[1..|field|] == field[1..] && m[|field|..] == " already exists"
  {
  }

  /** Every response the handler sends carries one of the statuses it names,
      or the error's own non-zero status. */
  lemma StatusIsClassified<D>(err: Error, nodeEnv: string)
    ensures var h := ErrorHandler<D>(err, nodeEnv);
      h.Sent? ==> h.response.status in {400, 401, 500} || Some(h.response.status) == err.status
  {
  }

  /** `notFound(req, res, next)` for a request whose `req.originalUrl` is `url`. */
  function NotFound<D>(url: string): (r: Response<D>)
    ensures r.status == 404 && !r.body.success
    ensures r.body.message.Some? && Contains(r.body.message.value, url)
    ensures r.body.message.value == "Route " + url + " not found"
  {
    var m := "Route " + url + " not found";
    ContainsSelf(url);
    ContainsInRight("Route ", url, url);
    ContainsInLeft("Route " + url, " not found", url);
    Failure(404, m)
  }
}
