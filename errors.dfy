/**
 * The HTTP error taxonomy: an immutable (statusCode, errorCode, message)
 * triple and the six kinds of error the application raises, each fixing its
 * wire status and a default message.
 */
module Errors {
  import opened Wrappers

  /** An `HttpError`: set once by its constructor, only read afterwards. */
  datatype HttpError = HttpError(statusCode: int, errorCode: int, message: string) {

    function GetStatusCode(): int { statusCode }

    function GetErrorCode(): int { errorCode }

    function GetMessage(): string { message }
  }

  /** What can be thrown: an `HttpError`, or any other JavaScript error. */
  datatype Thrown = Http(error: HttpError) | Foreign(description: string)

  const Default401Message := "No authentication was provided."
  const Default403Message := "You are not permitted to access this resource."
  const Default404Message := "Resource does not exist."
  const Default415Message := "Media type is not supported."
  const Default422Message := "Unprocessable Entity."
  const Default500Message := "Internal server error."

  /** The wire statuses of the six error kinds. */
  const StatusCodes: set<int> := {401, 403, 404, 415, 422, 500}

  // The six constructors. A `None` message is an omitted argument, for
  // which the kind's default message is used.

  function NewHttp401Error(errorCode: int, message: Option<string>): HttpError {
    HttpError(401, errorCode, message.GetOr(Default401Message))
  }

  function NewHttp403Error(errorCode: int, message: Option<string>): HttpError {
    HttpError(403, errorCode, message.GetOr(Default403Message))
  }

  function NewHttp404Error(errorCode: int, message: Option<string>): HttpError {
    HttpError(404, errorCode, message.GetOr(Default404Message))
  }

  function NewHttp415Error(errorCode: int, message: Option<string>): HttpError {
    HttpError(415, errorCode, message.GetOr(Default415Message))
  }

  function NewHttp422Error(message: Option<string>): HttpError {
    HttpError(422, 422, message.GetOr(Default422Message))
  }

  function NewHttp500Error(message: Option<string>): HttpError {
    HttpError(500, 500, message.GetOr(Default500Message))
  }

  /** A call of one of the six constructors, with its arguments. */
  datatype Construction =
    | New401(errorCode: int, message: Option<string>)
    | New403(errorCode: int, message: Option<string>)
    | New404(errorCode: int, message: Option<string>)
    | New415(errorCode: int, message: Option<string>)
    | New422(message: Option<string>)
    | New500(message: Option<string>)
  {
    /** True for the two kinds whose error code is fixed to their status. */
    predicate IsTerminal() { New422? || New500? }
  }

  function Construct(c: Construction): (e: HttpError)
    ensures e.statusCode in StatusCodes
    ensures c.IsTerminal() ==> e.errorCode == e.statusCode
    ensures !c.IsTerminal() ==> e.errorCode == c.errorCode
    ensures c.message.Some? ==> e.message == c.message.value
  {
    match c
    case New401(code, m) => NewHttp401Error(code, m)
    case New403(code, m) => NewHttp403Error(code, m)
    case New404(code, m) => NewHttp404Error(code, m)
    case New415(code, m) => NewHttp415Error(code, m)
    case New422(m) => NewHttp422Error(m)
    case New500(m) => NewHttp500Error(m)
  }

  /** The three getters return exactly what the constructor was given. */
  lemma GettersReturnConstructorArguments(statusCode: int, errorCode: int, message: string)
    ensures HttpError(statusCode, errorCode, message).GetStatusCode() == statusCode
    ensures HttpError(statusCode, errorCode, message).GetErrorCode() == errorCode
    ensures HttpError(statusCode, errorCode, message).GetMessage() == message
  {
  }

  /** 401, 403, 404 and 415 fix the status and pass the caller's code and message through. */
  lemma CallerCodeKindsFixStatus(errorCode: int, message: string)
    ensures NewHttp401Error(errorCode, Some(message)) == HttpError(401, errorCode, message)
    ensures NewHttp403Error(errorCode, Some(message)) == HttpError(403, errorCode, message)
    ensures NewHttp404Error(errorCode, Some(message)) == HttpError(404, errorCode, message)
    ensures NewHttp415Error(errorCode, Some(message)) == HttpError(415, errorCode, message)
  {
  }

  /** With the message omitted, each kind carries its default message. */
  lemma DefaultMessages(errorCode: int)
    ensures NewHttp401Error(errorCode, None).message == "No authentication was provided."
    ensures NewHttp403Error(errorCode, None).message == "You are not permitted to access this resource."
    ensures NewHttp404Error(errorCode, None).message == "Resource does not exist."
    ensures NewHttp415Error(errorCode, None).message == "Media type is not supported."
    ensures NewHttp422Error(None) == HttpError(422, 422, "Unprocessable Entity.")
    ensures NewHttp500Error(None) == HttpError(500, 500, "Internal server error.")
  {
  }

  /** The wire status alone tells which of the six kinds was constructed. */
  lemma StatusIdentifiesKind(c1: Construction, c2: Construction)
    ensures Construct(c1).statusCode == Construct(c2).statusCode <==>
      (c1.New401? && c2.New401?) || (c1.New403? && c2.New403?) || (c1.New404? && c2.New404?) ||
      (c1.New415? && c2.New415?) || (c1.New422? && c2.New422?) || (c1.New500? && c2.New500?)
  {
  }
}
