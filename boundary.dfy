/**
 * The API's error-handling middleware: whatever reaches it (no error, a
 * foreign error, or an `HttpError`) becomes a response whose status is the
 * error's wire status and whose JSON body is `{http, error, message}`.
 */
module Boundary {
  import opened Wrappers
  import opened Errors

  datatype Json = JNum(n: int) | JStr(s: string)

  /** A JSON object as its key/value pairs, in insertion order. */
  type JsonObject = seq<(string, Json)>

  datatype Response = Response(status: int, body: JsonObject)

  /** The message of the 404 synthesised when no error reached the handler. */
  function NotFoundMessage(url: string): string {
    "Sorry \"/api" + url + "\" does not exist."
  }

  /** The `HttpError` that gets sent for what reached the handler. */
  function Resolve(error: Option<Thrown>, url: string): (e: HttpError)
    ensures error.None? ==> e == HttpError(404, 404, NotFoundMessage(url))
    ensures error.Some? && error.value.Foreign? ==> e == HttpError(500, 500, Default500Message)
    ensures error.Some? && error.value.Http? ==> e == error.value.error
  {
    var found := if error.None? then Http(NewHttp404Error(404, Some(NotFoundMessage(url)))) else error.value;
    if !found.Http? then NewHttp500Error(None) else found.error
  }

  /** `res.status(code)` followed by `res.json({http, error, message})`. */
  function Serialize(e: HttpError): (r: Response)
    ensures r.status == e.statusCode && ParseBody(r.body) == Some(e)
  {
    Response(e.GetStatusCode(), [("http", JNum(e.GetStatusCode())), ("error", JNum(e.GetErrorCode())), ("message", JStr(e.GetMessage()))])
  }

  /** The middleware. */
  function Handle(error: Option<Thrown>, url: string): (r: Response)
    ensures r.status == Resolve(error, url).statusCode
    ensures ParseBody(r.body) == Some(Resolve(error, url))
  {
    Serialize(Resolve(error, url))
  }

  /** Reads a body back: defined only on exactly the three keys, in order. */
  function ParseBody(body: JsonObject): Option<HttpError> {
    if |body| == 3 && body[0].0 == "http" && body[1].0 == "error" && body[2].0 == "message" &&
       body[0].1.JNum? && body[1].1.JNum? && body[2].1.JStr?
    then Some(HttpError(body[0].1.n, body[1].1.n, body[2].1.s))
    else None
  }

  /** Serializing loses nothing: the body reads back as the error it came from. */
  lemma SerializeRoundTrip(e: HttpError)
    ensures ParseBody(Serialize(e).body) == Some(e)
  {
  }

  /** And a body that reads back as `e` is exactly the body `e` serializes to. */
  lemma ParseBodyExact(body: JsonObject, e: HttpError)
    requires ParseBody(body) == Some(e)
    ensures body == Serialize(e).body
  {
  }

  /** The response status is always the body's `http` field. */
  lemma StatusIsHttpField(error: Option<Thrown>, url: string)
    ensures |Handle(error, url).body| == 3
    ensures Handle(error, url).body[0] == ("http", JNum(Handle(error, url).status))
    ensures ParseBody(Handle(error, url).body).Some?
  {
  }

  lemma AbsentErrorIsNotFound(url: string)
    ensures Handle(None, url) == Response(404, [
      ("http", JNum(404)), ("error", JNum(404)),
      ("message", JStr("Sorry \"/api" + url + "\" does not exist."))])
  {
  }

  /** A foreign error is replaced by a generic 500: nothing of it reaches the client. */
  lemma ForeignErrorIsHidden(description: string, url: string, otherDescription: string, otherUrl: string)
    ensures Handle(Some(Foreign(description)), url) == Response(500, [
      ("http", JNum(500)), ("error", JNum(500)), ("message", JStr("Internal server error."))])
    ensures Handle(Some(Foreign(description)), url) == Handle(Some(Foreign(otherDescription)), otherUrl)
  {
  }

  lemma HttpErrorPassesThrough(e: HttpError, url: string)
    ensures Handle(Some(Http(e)), url) == Serialize(e)
    ensures ParseBody(Handle(Some(Http(e)), url).body) == Some(e)
    ensures Handle(Some(Http(e)), url).status == e.statusCode
  {
  }

  /** When every `HttpError` thrown comes from one of the six constructors, only their statuses are sent. */
  lemma ConstructedErrorsKeepStatusSet(error: Option<Thrown>, url: string, c: Construction)
    requires error.Some? && error.value.Http? ==> error.value.error == Construct(c)
    ensures Handle(error, url).status in StatusCodes
  {
  }
}
