/** The two public ways to decode and validate a request, and the error renderer that joins them. */
module Respond {
  import opened BodyDecode
  import opened BodyDecodeTheorems
  import opened Common

  const MSG_VALIDATION_FAILED := "Validation failed"
  const MSG_BODY_TOO_LARGE := "request body too large"
  const MSG_INTERNAL := "Internal server error"

  datatype FieldError = FieldError(field: string, tag: string)
  datatype Item = Item(field: string, message: string)

  /** What a validator answers. */
  datatype Validation = Valid | FieldErrors(errs: seq<FieldError>) | OtherError

  datatype HTTPError = HTTPError(message: string, status: int, code: string)

  /** The errors that HandleError tells apart. */
  datatype Error = Http(e: HTTPError) | ValidationHTTP(inner: HTTPError, items: seq<Item>) | DeadlineExceeded | Other

  datatype Response =
    | ErrorResponse(status: int, code: string, message: string)
    | ValidationErrorResponse(status: int, code: string, message: string, items: seq<Item>)

  // ---- field errors ----

  function LastDot(s: string): (i: int)
    ensures -1 <= i < |s|
    ensures i >= 0 ==> s[i] == '.'
    ensures forall k :: i < k < |s| ==> s[k] != '.'
  {
    if s == "" then -1
    else if s[|s| - 1] == '.' then |s| - 1
    else LastDot(s[..|s| - 1])
  }

  function SanitizeField(field: string): string {
    var i := LastDot(field);
    if i >= 0 && i + 1 < |field| then field[i + 1..] else field
  }

  function SanitizeMessage(tag: string): string {
    if tag == "required" || tag == "not_empty" then "Required"
    else if tag == "email" || tag == "custom_email" then "Invalid format"
    else "Invalid value"
  }

  function ItemOf(e: FieldError): Item {
    Item(SanitizeField(e.field), SanitizeMessage(e.tag))
  }

  /** validationErrorsToItems: one item for each error, in order. */
  method ValidationErrorsToItems(errs: seq<FieldError>) returns (items: seq<Item>)
    ensures items == Items(errs)
    ensures |items| == |errs| && forall k :: 0 <= k < |errs| ==> items[k] == ItemOf(errs[k])
  {
    var a := new Item[|errs|](_ => Item("", ""));
    for i := 0 to |errs|
      invariant forall k :: 0 <= k < i ==> a[k] == ItemOf(errs[k])
    {
      a[i] := ItemOf(errs[i]);
    }
    items := a[..];
  }

  function Items(errs: seq<FieldError>): (items: seq<Item>)
    ensures |items| == |errs| && forall k :: 0 <= k < |errs| ==> items[k] == ItemOf(errs[k])
  {
    seq(|errs|, k requires 0 <= k < |errs| => ItemOf(errs[k]))
  }

  /** The reported field is the last component of the path, and the whole path only when it ends with a dot. */
  lemma ReportedField(field: string)
    ensures var r := SanitizeField(field);
            && |r| <= |field| && r == field[|field| - |r|..]
            && ('.' in r <==> field != "" && field[|field| - 1] == '.')
            && (r != field ==> field[|field| - |r| - 1] == '.')
  {
    var r := SanitizeField(field);
    if '.' in r {
      var k :| 0 <= k < |r| && r[k] == '.';
      assert field[|field| - |r| + k] == '.';
    }
  }

  /** An item names the last component of the path, and what the tag says is wrong; no other tag shows. */
  lemma ItemSays(e: FieldError)
    ensures var item := ItemOf(e);
            && item.field == SanitizeField(e.field)
            && (item.message == "Required" <==> e.tag == "required" || e.tag == "not_empty")
            && (item.message == "Invalid format" <==> e.tag == "email" || e.tag == "custom_email")
            && item.message in ["Required", "Invalid format", "Invalid value"]
  {
    assert "Required"[0] == 'R' && "Invalid format"[0] == 'I' && "Invalid value"[0] == 'I';
    assert |"Invalid format"| == 14 && |"Invalid value"| == 13;
    assert |"required"| == 8 && |"not_empty"| == 9 && |"email"| == 5 && |"custom_email"| == 12;
  }

  // ---- rendering an error ----

  function CodeFromStatus(status: int): string {
    if status == 400 then "BAD_REQUEST"
    else if status == 401 then "UNAUTHORIZED"
    else if status == 403 then "FORBIDDEN"
    else if status == 404 then "NOT_FOUND"
    else if status == 409 then "CONFLICT"
    else if status == 410 then "GONE"
    else if status == 402 then "PAYMENT_REQUIRED"
    else if status == 415 then "UNSUPPORTED_MEDIA_TYPE"
    else if status == 422 then "VALIDATION_ERROR"
    else if status == 429 then "RATE_LIMIT_EXCEEDED"
    else if status == 503 then "SERVICE_UNAVAILABLE"
    else "INTERNAL_ERROR"
  }

  /** HandleError on a non-nil error, writer and request. */
  function HandleError(err: Error): Response {
    match err
    case ValidationHTTP(inner, items) => ValidationErrorResponse(inner.status, inner.code, MSG_VALIDATION_FAILED, items)
    case Http(e) =>
      ErrorResponse(e.status, if e.code == "" then CodeFromStatus(e.status) else e.code,
                    if e.status >= 500 then MSG_INTERNAL else e.message)
    case DeadlineExceeded => ErrorResponse(503, "TIMEOUT", "request timeout")
    case Other => ErrorResponse(500, CodeFromStatus(500), MSG_INTERNAL)
  }

  /** Every status has its code; all others, and only they, have the code of an internal error. */
  lemma CodeOfStatus(status: int)
    ensures CodeFromStatus(400) == "BAD_REQUEST" && CodeFromStatus(401) == "UNAUTHORIZED"
    ensures CodeFromStatus(402) == "PAYMENT_REQUIRED" && CodeFromStatus(403) == "FORBIDDEN"
    ensures CodeFromStatus(404) == "NOT_FOUND" && CodeFromStatus(409) == "CONFLICT" && CodeFromStatus(410) == "GONE"
    ensures CodeFromStatus(415) == "UNSUPPORTED_MEDIA_TYPE" && CodeFromStatus(422) == "VALIDATION_ERROR"
    ensures CodeFromStatus(429) == "RATE_LIMIT_EXCEEDED" && CodeFromStatus(503) == "SERVICE_UNAVAILABLE"
    ensures CodeFromStatus(status) == "INTERNAL_ERROR"
       <==> status !in [400, 401, 402, 403, 404, 409, 410, 415, 422, 429, 503]
  {
    assert "INTERNAL_ERROR"[0] == 'I' && "BAD_REQUEST"[0] == 'B' && "UNAUTHORIZED"[0] == 'U' && "FORBIDDEN"[0] == 'F';
    assert "NOT_FOUND"[0] == 'N' && "CONFLICT"[0] == 'C' && "GONE"[0] == 'G' && "PAYMENT_REQUIRED"[0] == 'P';
    assert "UNSUPPORTED_MEDIA_TYPE"[0] == 'U' && "VALIDATION_ERROR"[0] == 'V' && "RATE_LIMIT_EXCEEDED"[0] == 'R';
    assert "SERVICE_UNAVAILABLE"[0] == 'S';
  }

  /** An error of the server's own: its text is not for the client. */
  predicate Internal(err: Error) {
    err.Other? || (err.Http? && err.e.status >= 500)
  }

  /**
    What a client is shown: the error's own status, its code or else the one of its status, its items, and its text
    exactly unless it is internal or a timeout.
   */
  lemma ErrorIsRendered(err: Error)
    ensures var r := HandleError(err);
            && (r.ValidationErrorResponse? <==> err.ValidationHTTP?)
            && (err.ValidationHTTP? ==>
                  r == ValidationErrorResponse(err.inner.status, err.inner.code, "Validation failed", err.items))
            && (err.Http? ==>
                  && r.status == err.e.status && (err.e.code != "" ==> r.code == err.e.code)
                  && (err.e.code == "" ==> r.code == CodeFromStatus(err.e.status)))
            && (err.Http? && !Internal(err) ==> r.message == err.e.message)
            && (Internal(err) ==> r.message == "Internal server error")
            && (err.Other? ==> r.status == 500 && r.code == "INTERNAL_ERROR")
            && (err.DeadlineExceeded? ==> r == ErrorResponse(503, "TIMEOUT", "request timeout"))
  {
  }

  // ---- the two ways ----

  /** decodeError.response */
  function DecodeResponse<V>(o: Outcome<V>): Response
    requires !o.Ok?
  {
    match o
    case BadRequest => ErrorResponse(400, "BAD_REQUEST", "request body is nil")
    case BodyTooLarge => ErrorResponse(413, "REQUEST_ENTITY_TOO_LARGE", MSG_BODY_TOO_LARGE)
    case InvalidJSON => ErrorResponse(400, "INVALID_JSON", "invalid JSON format")
    case TrailingData => ErrorResponse(400, "INVALID_JSON", "trailing data after JSON")
  }

  /** decodeError.httpError */
  function DecodeHTTPError<V>(o: Outcome<V>): HTTPError
    requires !o.Ok?
  {
    match o
    case BadRequest => HTTPError("request or body is nil", 400, "BAD_REQUEST")
    case BodyTooLarge => HTTPError(MSG_BODY_TOO_LARGE, 413, "REQUEST_ENTITY_TOO_LARGE")
    case InvalidJSON => HTTPError("invalid JSON in request body", 400, "INVALID_JSON")
    case TrailingData => HTTPError("trailing data after JSON", 400, "INVALID_JSON")
  }

  /** DecodeAndValidate for a non-nil request and writer: the value, or the response it writes. */
  function DecodeAndValidate<V>(decoded: Outcome<V>, v: Option<V -> Validation>): (Option<V>, Option<Response>) {
    if !decoded.Ok? then (None, Some(DecodeResponse(decoded)))
    else if v.None? then (None, Some(ErrorResponse(500, "INTERNAL_ERROR", MSG_INTERNAL)))
    else
      match v.value(decoded.v)
      case Valid => (Some(decoded.v), None)
      case FieldErrors(errs) =>
        (None, Some(ValidationErrorResponse(400, "VALIDATION_ERROR", MSG_VALIDATION_FAILED, Items(errs))))
      case OtherError => (None, Some(ErrorResponse(400, "VALIDATION_ERROR", MSG_VALIDATION_FAILED)))
  }

  /** DecodeAndValidateE: the value, or the error it returns. */
  function DecodeAndValidateE<V>(decoded: Outcome<V>, v: Option<V -> Validation>): (Option<V>, Option<Error>) {
    if !decoded.Ok? then (None, Some(Http(DecodeHTTPError(decoded))))
    else if v.None? then (None, Some(Http(HTTPError("validator is nil", 500, "INTERNAL_ERROR"))))
    else
      match v.value(decoded.v)
      case Valid => (Some(decoded.v), None)
      case FieldErrors(errs) =>
        (None, Some(ValidationHTTP(HTTPError("", 400, "VALIDATION_ERROR"), Items(errs))))
      case OtherError => (None, Some(Http(HTTPError("validation failed", 400, "VALIDATION_ERROR"))))
  }

  predicate SameButMessage(a: Response, b: Response) {
    match (a, b)
    case (ErrorResponse(s, c, _), ErrorResponse(s', c', _)) => s == s' && c == c'
    case (ValidationErrorResponse(s, c, _, i), ValidationErrorResponse(s', c', _, i')) => s == s' && c == c' && i == i'
    case _ => false
  }

  /** The status and code that tell a client what went wrong. */
  predicate Tells<V>(decoded: Outcome<V>, v: Option<V -> Validation>, status: int, code: string) {
    match decoded
    case BodyTooLarge => status == 413 && code == "REQUEST_ENTITY_TOO_LARGE"
    case BadRequest => status == 400 && code == "BAD_REQUEST"
    case Ok(_) =>
      if v.None? then status == 500 && code == "INTERNAL_ERROR" else status == 400 && code == "VALIDATION_ERROR"
    case _ => status == 400 && code == "INVALID_JSON"
  }

  /**
    One way responds exactly when the other returns an error, and HandleError renders that error alike. There is no
    response exactly when the body decodes and a validator finds it valid; then both give the decoded value.
   */
  lemma WaysAgree<V>(decoded: Outcome<V>, v: Option<V -> Validation>)
    ensures var (x, response), (y, error) := DecodeAndValidate(decoded, v), DecodeAndValidateE(decoded, v);
            && x == y
            && (response.Some? <==> error.Some?) && (response.Some? <==> x.None?)
            && (x.Some? <==> decoded.Ok? && v.Some? && v.value(decoded.v) == Valid)
            && (x.Some? ==> x == Some(decoded.v))
            && (error.Some? ==> SameButMessage(response.value, HandleError(error.value)))
            && (error.Some? ==> Tells(decoded, v, response.value.status, response.value.code))
  {
  }

  /** What one way makes of an outcome, against what the other makes of another outcome for the same body. */
  predicate Agree<V(==)>(one: Outcome<V>, other: Outcome<V>, v: Option<V -> Validation>) {
    var (x, response), (y, error) := DecodeAndValidate(one, v), DecodeAndValidateE(other, v);
    && x == y && (response.Some? <==> error.Some?)
    && (error.Some? ==> SameButMessage(response.value, HandleError(error.value)))
  }

  /**
    For one body read twice, chunked and read ahead in any way, the two ways agree exactly outside the one case in which
    reading ahead matters.
   */
  lemma WaysAgreeOnBodiesIff<V(!new)>(d: (seq<Byte>, bool) -> Verdict<V>, data: seq<Byte>, end: End, eager: bool,
                                      limit: int, v: Option<V -> Validation>)
    requires Lawful(d)
    ensures (forall plan, asks, plan', asks' ::
               Agree(OutcomeOf(d, data, end, eager, plan, asks, limit),
                     OutcomeOf(d, data, end, eager, plan', asks', limit), v))
       <==> !ReadAheadMatters(d, data, end, eager, limit)
  {
    OneOutcomeIff(d, data, end, eager, limit);
    if ReadAheadMatters(d, data, end, eager, limit) {
      var slow := OutcomeOf(d, data, end, eager, [], ByteByByte, limit);
      assert !Agree(slow, OutcomeOf(d, data, end, eager, [], _ => |data|, limit), v);
    } else {
      forall plan: seq<nat>, asks: nat -> nat, plan': seq<nat>, asks': nat -> nat
        ensures Agree(OutcomeOf(d, data, end, eager, plan, asks, limit),
                      OutcomeOf(d, data, end, eager, plan', asks', limit), v)
      {
        WaysAgree(OutcomeOf(d, data, end, eager, plan, asks, limit), v);
      }
    }
  }

  /** They send the same message too, except in three cases: no body, invalid JSON, and a validator's own error. */
  lemma MessagesAgreeIff<V>(decoded: Outcome<V>, v: Option<V -> Validation>)
    requires DecodeAndValidateE(decoded, v).1.Some?
    ensures DecodeAndValidate(decoded, v).1.value == HandleError(DecodeAndValidateE(decoded, v).1.value)
       <==> !decoded.BadRequest? && !decoded.InvalidJSON? && !(decoded.Ok? && v.Some? && v.value(decoded.v).OtherError?)
  {
    assert "request body is nil"[8] != "request or body is nil"[8];
    assert "invalid JSON format"[13] != "invalid JSON in request body"[13];
    assert MSG_VALIDATION_FAILED[0] != "validation failed"[0];
  }
}
