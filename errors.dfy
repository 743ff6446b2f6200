/**
 * The application's error classes: a base `CustomError` carrying a message,
 * an HTTP status code and optional details, and four subclasses that fix the
 * status code and supply a default message.  The class hierarchy becomes one
 * record whose `kind` says which subclass constructed it.
 */
module Errors {
  import opened Wrappers

  /** One entry of an error's detail list (a validation issue: the field path and what is wrong). */
  datatype ErrorDetail = ErrorDetail(path: Option<string>, message: Option<string>)

  /** The subclasses of `CustomError`. */
  datatype ErrorKind = BadRequest | NotFound | Conflict | InternalServer

  /**
   * An application error.  `kind` is `None` for an error built with the base
   * constructor directly, and names the subclass otherwise.
   */
  datatype CustomError = CustomError(
    kind: Option<ErrorKind>,
    message: string,
    statusCode: int,
    details: Option<seq<ErrorDetail>>)

  /** The status code each subclass passes to the base constructor. */
  function StatusCode(kind: ErrorKind): (code: int)
    ensures 400 <= code < 600
    ensures code < 500 <==> kind != InternalServer
    ensures StatusKind(code) == Some(kind)
  {
    match kind
    case BadRequest => 400
    case NotFound => 404
    case Conflict => 409
    case InternalServer => 500
  }

  /** Which subclass, if any, uses a given status code: the inverse of `StatusCode`. */
  function StatusKind(code: int): (kind: Option<ErrorKind>)
  {
    if code == 400 then Some(BadRequest)
    else if code == 404 then Some(NotFound)
    else if code == 409 then Some(Conflict)
    else if code == 500 then Some(InternalServer)
    else None
  }

  /** The message a subclass uses when its constructor is called without one. */
  function DefaultMessage(kind: ErrorKind): string
  {
    match kind
    case BadRequest => "Bad Request"
    case NotFound => "Resource Not Found"
    case Conflict => "Conflict"
    case InternalServer => "Internal Server Error"
  }

  /** A JavaScript default parameter: an omitted message takes the class's default. */
  function MessageOr(message: Option<string>, kind: ErrorKind): string
  {
    match message
    case Some(text) => text
    case None => DefaultMessage(kind)
  }

  /** `new CustomError(message, statusCode, details)`. */
  function NewCustomError(message: string, statusCode: int, details: Option<seq<ErrorDetail>>): (e: CustomError)
    ensures e.message == message && e.statusCode == statusCode && e.details == details
    ensures e.kind.None?
  {
    CustomError(None, message, statusCode, details)
  }

  /** `new BadRequestError(message?, details?)`: a 400 that keeps the details it is given. */
  function NewBadRequestError(message: Option<string>, details: Option<seq<ErrorDetail>>): (e: CustomError)
    ensures e.kind == Some(BadRequest) && e.statusCode == 400
    ensures message.Some? ==> e.message == message.value
    ensures message.None? ==> e.message == "Bad Request"
    ensures e.details == details
    ensures WellFormed(e)
  {
    var base := NewCustomError(MessageOr(message, BadRequest), StatusCode(BadRequest), details);
    base.(kind := Some(BadRequest))
  }

  /** `new NotFoundError(message?)`: a 404 without details. */
  function NewNotFoundError(message: Option<string>): (e: CustomError)
    ensures e.kind == Some(NotFound) && e.statusCode == 404
    ensures message.Some? ==> e.message == message.value
    ensures message.None? ==> e.message == "Resource Not Found"
    ensures e.details.None?
    ensures WellFormed(e)
  {
    var base := NewCustomError(MessageOr(message, NotFound), StatusCode(NotFound), None);
    base.(kind := Some(NotFound))
  }

  /** `new ConflictError(message?)`: a 409 without details. */
  function NewConflictError(message: Option<string>): (e: CustomError)
    ensures e.kind == Some(Conflict) && e.statusCode == 409
    ensures message.Some? ==> e.message == message.value
    ensures message.None? ==> e.message == "Conflict"
    ensures e.details.None?
    ensures WellFormed(e)
  {
    var base := NewCustomError(MessageOr(message, Conflict), StatusCode(Conflict), None);
    base.(kind := Some(Conflict))
  }

  /** `new InternalServerError(message?)`: a 500 without details. */
  function NewInternalServerError(message: Option<string>): (e: CustomError)
    ensures e.kind == Some(InternalServer) && e.statusCode == 500
    ensures message.Some? ==> e.message == message.value
    ensures message.None? ==> e.message == "Internal Server Error"
    ensures e.details.None?
    ensures WellFormed(e)
  {
    var base := NewCustomError(MessageOr(message, InternalServer), StatusCode(InternalServer), None);
    base.(kind := Some(InternalServer))
  }

  /**
   * What holds of every error a subclass constructor builds: the status code
   * is the subclass's own, and only a bad-request error may carry details.
   */
  predicate WellFormed(e: CustomError)
  {
    e.kind.Some? ==>
      e.statusCode == StatusCode(e.kind.value) &&
      (e.details.Some? ==> e.kind.value == BadRequest)
  }

  /** The status code of a subclass error alone tells which subclass built it. */
  lemma StatusIdentifiesKind(e: CustomError)
    requires WellFormed(e) && e.kind.Some?
    ensures StatusKind(e.statusCode) == e.kind
  {
  }

  /** No two subclasses share a status code. */
  lemma StatusCodeInjective(a: ErrorKind, b: ErrorKind)
    ensures StatusCode(a) == StatusCode(b) ==> a == b
  {
    assert StatusKind(StatusCode(a)) == Some(a);
    assert StatusKind(StatusCode(b)) == Some(b);
  }

  /** An explicit message replaces the default, whichever subclass is built. */
  lemma ExplicitMessageWins(text: string, details: Option<seq<ErrorDetail>>)
    ensures NewBadRequestError(Some(text), details).message == text
    ensures NewNotFoundError(Some(text)).message == text
    ensures NewConflictError(Some(text)).message == text
    ensures NewInternalServerError(Some(text)).message == text
  {
  }
}
