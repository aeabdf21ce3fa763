/**
 * The error classification of the commerce-function wrapper
 * (integrations/salesforce/utils.ts): how a handler's result or thrown error
 * becomes either a returned value or a `CommerceAPIException`.
 *
 * JavaScript values are reduced to what the wrapper inspects: whether a result
 * is an object, which keys it has, and the text of its fields ("" for a field
 * whose value is falsy).
 */
module CommerceErrors {
  import opened Wrappers

  /** The fields of an error body (`CommerceAPIError`), by key. */
  type ErrorData = map<string, string>

  /** `CommerceAPIException`: message, HTTP status and the error body. */
  datatype ApiException = ApiException(message: string, status: int, data: ErrorData)

  /** A handler's resolved value: an object with its fields, or anything else (null, a primitive). */
  datatype Value = NotAnObject(repr: string) | Object(fields: map<string, string>)

  /** The `response` of an error thrown by the API client; absent parts are `None`. */
  datatype Response = Response(status: Option<int>, data: Option<ErrorData>)

  /** What a handler (or the API lookup before it) can throw. */
  datatype Thrown =
    | Commerce(exception: ApiException)
    | Failed(message: string, response: Option<Response>)
    | NullThrown

  /** How the handler call ended. */
  datatype HandlerOutcome = Resolved(value: Value) | Rejected(thrown: Thrown)

  /** How the wrapped call ends: the value, a `CommerceAPIException`, or a `TypeError` raised inside the catch. */
  datatype Outcome = Returned(value: Value) | Raised(exception: ApiException) | RaisedTypeError

  const DefaultStatus: int := 400
  const ServerErrorStatus: int := 500
  const ErrorResultMessage: string := "An error occurred with the Commerce API"
  const ResponseErrorMessage: string := "Commerce API Error"
  const UnexpectedErrorMessage: string := "An unexpected error occurred"

  /** The `CommerceAPIException` constructor with its defaults: status 400, data `{}`. */
  function NewException(message: string, status: Option<int>, data: Option<ErrorData>): (e: ApiException)
    ensures e.message == message
    ensures status.None? ==> e.status == DefaultStatus
    ensures status.Some? ==> e.status == status.value
    ensures data.None? ==> e.data == map[]
    ensures data.Some? ==> e.data == data.value
  {
    ApiException(message, status.GetOr(DefaultStatus), data.GetOr(map[]))
  }

  /** `fields[key] || fallback`. */
  function FieldOr(fields: map<string, string>, key: string, fallback: string): (r: string)
    ensures key in fields && fields[key] != "" ==> r == fields[key]
    ensures !(key in fields && fields[key] != "") ==> r == fallback
  {
    if key in fields && fields[key] != "" then fields[key] else fallback
  }

  /** A result that carries both `detail` and `title` is an error body in disguise. */
  predicate LooksLikeError(v: Value)
  {
    v.Object? && "detail" in v.fields && "title" in v.fields
  }

  /** The `catch` block: rethrow our own exceptions, wrap everything else. */
  function Classify(t: Thrown): (r: Outcome)
    ensures !r.Returned?
    ensures t.Commerce? ==> r == Raised(t.exception)
    ensures t.NullThrown? <==> r.RaisedTypeError?
    ensures t.Failed? && t.response.Some? && t.response.value.data.Some? ==>
      var resp := t.response.value;
      r == Raised(ApiException(
        FieldOr(resp.data.value, "detail", ResponseErrorMessage),
        if resp.status.Some? && resp.status.value != 0 then resp.status.value else ServerErrorStatus,
        resp.data.value))
    ensures t.Failed? && !(t.response.Some? && t.response.value.data.Some?) ==>
      r == Raised(ApiException(if t.message != "" then t.message else UnexpectedErrorMessage, ServerErrorStatus, map[]))
  {
    match t
    case Commerce(e) => Raised(e)
    case NullThrown => RaisedTypeError
    case Failed(message, response) =>
      if response.Some? && response.value.data.Some? then
        var resp := response.value;
        var status := if resp.status.Some? && resp.status.value != 0 then resp.status.value else ServerErrorStatus;
        Raised(NewException(FieldOr(resp.data.value, "detail", ResponseErrorMessage), Some(status), resp.data))
      else
        Raised(NewException(if message != "" then message else UnexpectedErrorMessage, Some(ServerErrorStatus), None))
  }

  /** The function `createCommerceFunction` returns, applied to one handler outcome. */
  function CommerceFunction(h: HandlerOutcome): (r: Outcome)
    ensures h.Resolved? && !LooksLikeError(h.value) ==> r == Returned(h.value)
    ensures h.Resolved? && LooksLikeError(h.value) ==>
      r == Raised(ApiException(FieldOr(h.value.fields, "detail", ErrorResultMessage), DefaultStatus, h.value.fields))
    ensures r.Returned? ==> h == Resolved(r.value)
    ensures h.Rejected? ==> r == Classify(h.thrown)
  {
    match h
    case Resolved(v) =>
      if LooksLikeError(v) then
        Classify(Commerce(NewException(FieldOr(v.fields, "detail", ErrorResultMessage), Some(DefaultStatus), Some(v.fields))))
      else Returned(v)
    case Rejected(t) => Classify(t)
  }

  /** An exception the wrapper builds itself always has a message; only rethrown ones may not. */
  lemma OwnExceptionsHaveMessages(h: HandlerOutcome)
    requires !(h.Rejected? && h.thrown.Commerce?)
    ensures CommerceFunction(h).Raised? ==> CommerceFunction(h).exception.message != ""
  {
  }

  /** The status of an exception the wrapper builds is 400, 500 or the response's own non-zero status. */
  lemma OwnExceptionStatuses(h: HandlerOutcome)
    requires !(h.Rejected? && h.thrown.Commerce?)
    ensures var r := CommerceFunction(h);
      r.Raised? ==>
        r.exception.status == DefaultStatus || r.exception.status == ServerErrorStatus ||
        (h.Rejected? && h.thrown.Failed? && h.thrown.response.Some? &&
         h.thrown.response.value.status == Some(r.exception.status) && r.exception.status != 0)
  {
  }

  /** A wrapped call's outcome seen as the handler outcome of an enclosing wrapper. */
  function AsHandlerOutcome(o: Outcome): HandlerOutcome
    requires !o.RaisedTypeError?
  {
    match o
    case Returned(v) => Resolved(v)
    case Raised(e) => Rejected(Commerce(e))
  }

  /** Feeding a wrapped call's outcome to a second wrapper changes nothing (barring the `TypeError`). */
  lemma WrappingIsIdempotent(h: HandlerOutcome)
    requires !CommerceFunction(h).RaisedTypeError?
    ensures CommerceFunction(AsHandlerOutcome(CommerceFunction(h))) == CommerceFunction(h)
  {
  }
}
