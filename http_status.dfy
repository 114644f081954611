/** The HTTP status codes the client recognises: the codes of section 10 of
    RFC 2616, unused 306 included, each with its numeric raw value, and the
    table of all of them in ascending order. */
module HttpStatus {
  datatype StatusCode =
    Continue
    | SwitchingProtocols
    | Ok
    | Created
    | Accepted
    | NonAuthoritativeInformation
    | NoContent
    | ResetContent
    | PartialContent
    | MultipleChoices
    | MovedPermanently
    | Found
    | SeeOther
    | NotModified
    | UseProxy
    | Unused
    | TemporaryRedirect
    | BadRequest
    | Unauthorized
    | PaymentRequired
    | Forbidden
    | NotFound
    | MethodNotAllowed
    | NotAcceptable
    | ProxyAuthenticationRequired
    | RequestTimeout
    | Conflict
    | Gone
    | LengthRequired
    | PreconditionFailed
    | RequestEntityTooLarge
    | RequestURITooLong
    | UnsupportedMediaType
    | RequestedRangeNotSatisfiable
    | ExpectationFailed
    | InternalServerError
    | NotImplemented
    | BadGateway
    | ServiceUnavailable
    | GatewayTimeout
    | HttpVersionNotSupported

  function RawValue(s: StatusCode): nat
  {
    match s
    case Continue => 100
    case SwitchingProtocols => 101
    case Ok => 200
    case Created => 201
    case Accepted => 202
    case NonAuthoritativeInformation => 203
    case NoContent => 204
    case ResetContent => 205
    case PartialContent => 206
    case MultipleChoices => 300
    case MovedPermanently => 301
    case Found => 302
    case SeeOther => 303
    case NotModified => 304
    case UseProxy => 305
    case Unused => 306
    case TemporaryRedirect => 307
    case BadRequest => 400
    case Unauthorized => 401
    case PaymentRequired => 402
    case Forbidden => 403
    case NotFound => 404
    case MethodNotAllowed => 405
    case NotAcceptable => 406
    case ProxyAuthenticationRequired => 407
    case RequestTimeout => 408
    case Conflict => 409
    case Gone => 410
    case LengthRequired => 411
    case PreconditionFailed => 412
    case RequestEntityTooLarge => 413
    case RequestURITooLong => 414
    case UnsupportedMediaType => 415
    case RequestedRangeNotSatisfiable => 416
    case ExpectationFailed => 417
    case InternalServerError => 500
    case NotImplemented => 501
    case BadGateway => 502
    case ServiceUnavailable => 503
    case GatewayTimeout => 504
    case HttpVersionNotSupported => 505
  }

  /** The case name, as string interpolation prints a case. */
  function CaseName(s: StatusCode): string
  {
    match s
    case Continue => "continue"
    case SwitchingProtocols => "switchingProtocols"
    case Ok => "ok"
    case Created => "created"
    case Accepted => "accepted"
    case NonAuthoritativeInformation => "nonAuthoritativeInformation"
    case NoContent => "noContent"
    case ResetContent => "resetContent"
    case PartialContent => "partialContent"
    case MultipleChoices => "multipleChoices"
    case MovedPermanently => "movedPermanently"
    case Found => "found"
    case SeeOther => "seeOther"
    case NotModified => "notModified"
    case UseProxy => "useProxy"
    case Unused => "unused"
    case TemporaryRedirect => "temporaryRedirect"
    case BadRequest => "badRequest"
    case Unauthorized => "unauthorized"
    case PaymentRequired => "paymentRequired"
    case Forbidden => "forbidden"
    case NotFound => "notFound"
    case MethodNotAllowed => "methodNotAllowed"
    case NotAcceptable => "notAcceptable"
    case ProxyAuthenticationRequired => "proxyAuthenticationRequired"
    case RequestTimeout => "requestTimeout"
    case Conflict => "conflict"
    case Gone => "gone"
    case LengthRequired => "lengthRequired"
    case PreconditionFailed => "preconditionFailed"
    case RequestEntityTooLarge => "requestEntityTooLarge"
    case RequestURITooLong => "requestURITooLong"
    case UnsupportedMediaType => "unsupportedMediaType"
    case RequestedRangeNotSatisfiable => "requestedRangeNotSatisfiable"
    case ExpectationFailed => "expectationFailed"
    case InternalServerError => "internalServerError"
    case NotImplemented => "notImplemented"
    case BadGateway => "badGateway"
    case ServiceUnavailable => "serviceUnavailable"
    case GatewayTimeout => "gatewayTimeout"
    case HttpVersionNotSupported => "httpVersionNotSupported"
  }

  /** The static table of every case, in declaration order. */
  const GetAll: seq<StatusCode> := [
    Continue, SwitchingProtocols, Ok, Created,
    Accepted, NonAuthoritativeInformation, NoContent, ResetContent,
    PartialContent, MultipleChoices, MovedPermanently, Found,
    SeeOther, NotModified, UseProxy, Unused,
    TemporaryRedirect, BadRequest, Unauthorized, PaymentRequired,
    Forbidden, NotFound, MethodNotAllowed, NotAcceptable,
    ProxyAuthenticationRequired, RequestTimeout, Conflict, Gone,
    LengthRequired, PreconditionFailed, RequestEntityTooLarge, RequestURITooLong,
    UnsupportedMediaType, RequestedRangeNotSatisfiable, ExpectationFailed, InternalServerError,
    NotImplemented, BadGateway, ServiceUnavailable, GatewayTimeout,
    HttpVersionNotSupported]

  /** The position of a case in GetAll. */
  function IndexOf(s: StatusCode): (i: nat)
    ensures i < |GetAll| && GetAll[i] == s
  {
    match s
    case Continue => 0
    case SwitchingProtocols => 1
    case Ok => 2
    case Created => 3
    case Accepted => 4
    case NonAuthoritativeInformation => 5
    case NoContent => 6
    case ResetContent => 7
    case PartialContent => 8
    case MultipleChoices => 9
    case MovedPermanently => 10
    case Found => 11
    case SeeOther => 12
    case NotModified => 13
    case UseProxy => 14
    case Unused => 15
    case TemporaryRedirect => 16
    case BadRequest => 17
    case Unauthorized => 18
    case PaymentRequired => 19
    case Forbidden => 20
    case NotFound => 21
    case MethodNotAllowed => 22
    case NotAcceptable => 23
    case ProxyAuthenticationRequired => 24
    case RequestTimeout => 25
    case Conflict => 26
    case Gone => 27
    case LengthRequired => 28
    case PreconditionFailed => 29
    case RequestEntityTooLarge => 30
    case RequestURITooLong => 31
    case UnsupportedMediaType => 32
    case RequestedRangeNotSatisfiable => 33
    case ExpectationFailed => 34
    case InternalServerError => 35
    case NotImplemented => 36
    case BadGateway => 37
    case ServiceUnavailable => 38
    case GatewayTimeout => 39
    case HttpVersionNotSupported => 40
  }

  /** The status classes the declaration groups the cases into. */
  datatype StatusClass = Informational | Successful | Redirection | ClientError | ServerError

  /** The class each case is declared under. */
  function DeclaredClass(s: StatusCode): StatusClass
  {
    match s
    case Continue => Informational
    case SwitchingProtocols => Informational
    case Ok => Successful
    case Created => Successful
    case Accepted => Successful
    case NonAuthoritativeInformation => Successful
    case NoContent => Successful
    case ResetContent => Successful
    case PartialContent => Successful
    case MultipleChoices => Redirection
    case MovedPermanently => Redirection
    case Found => Redirection
    case SeeOther => Redirection
    case NotModified => Redirection
    case UseProxy => Redirection
    case Unused => Redirection
    case TemporaryRedirect => Redirection
    case BadRequest => ClientError
    case Unauthorized => ClientError
    case PaymentRequired => ClientError
    case Forbidden => ClientError
    case NotFound => ClientError
    case MethodNotAllowed => ClientError
    case NotAcceptable => ClientError
    case ProxyAuthenticationRequired => ClientError
    case RequestTimeout => ClientError
    case Conflict => ClientError
    case Gone => ClientError
    case LengthRequired => ClientError
    case PreconditionFailed => ClientError
    case RequestEntityTooLarge => ClientError
    case RequestURITooLong => ClientError
    case UnsupportedMediaType => ClientError
    case RequestedRangeNotSatisfiable => ClientError
    case ExpectationFailed => ClientError
    case InternalServerError => ServerError
    case NotImplemented => ServerError
    case BadGateway => ServerError
    case ServiceUnavailable => ServerError
    case GatewayTimeout => ServerError
    case HttpVersionNotSupported => ServerError
  }

  /** The leading digit of the codes of a class. */
  function LeadingDigit(c: StatusClass): nat
  {
    match c
    case Informational => 1
    case Successful => 2
    case Redirection => 3
    case ClientError => 4
    case ServerError => 5
  }


  /** Every code lies in the class it is declared under, and in 100..505. */
  lemma CodesWithinDeclaredClass(s: StatusCode)
    ensures RawValue(s) / 100 == LeadingDigit(DeclaredClass(s))
    ensures 100 <= RawValue(s) <= 505
  {
  }

  /** The success code callers compare against, and the reserved 306. */
  lemma NamedCodes()
    ensures RawValue(Ok) == 200 && CaseName(Ok) == "ok"
    ensures RawValue(Unused) == 306 && Unused in GetAll
  {
    assert GetAll[15] == Unused;
  }
}

/** The order of the status table: ascending codes, each case listed once. */
module HttpStatusOrder {
  import opened HttpStatus

  /** The code at position k of the table: the classes in turn, each counting
      up from its first code. */
  function CodeAt(k: nat): nat
  {
    if k < 2 then 100 + k
    else if k < 9 then 200 + (k - 2)
    else if k < 17 then 300 + (k - 9)
    else if k < 35 then 400 + (k - 17)
    else 500 + (k - 35)
  }

  lemma CodeAtAscending(i: nat, j: nat)
    requires i < j < |GetAll|
    ensures CodeAt(i) < CodeAt(j)
  {
  }

  /** Each case's code is the code of its position. */
  lemma RawValueAtPosition(s: StatusCode)
    ensures RawValue(s) == CodeAt(IndexOf(s))
  {
  }

  /** Position i of the table holds the case whose position is i, so no case
      is listed twice. */
  lemma PositionHoldsItsCase(i: nat)
    requires i < |GetAll|
    ensures IndexOf(GetAll[i]) == i
  {
    if i < 5 {
      PositionsFrom0(i);
    } else if i < 10 {
      PositionsFrom5(i);
    } else if i < 15 {
      PositionsFrom10(i);
    } else if i < 20 {
      PositionsFrom15(i);
    } else if i < 25 {
      PositionsFrom20(i);
    } else if i < 30 {
      PositionsFrom25(i);
    } else if i < 35 {
      PositionsFrom30(i);
    } else {
      PositionsFrom35(i);
    }
  }

  /** One stretch of the table, position by position. */
  lemma PositionsFrom0(i: nat)
    requires 0 <= i < 5
    ensures IndexOf(GetAll[i]) == i
  {
    match i
    case 0 =>
    case 1 =>
    case 2 =>
    case 3 =>
    case 4 =>
  }

  lemma PositionsFrom5(i: nat)
    requires 5 <= i < 10
    ensures IndexOf(GetAll[i]) == i
  {
    match i
    case 5 =>
    case 6 =>
    case 7 =>
    case 8 =>
    case 9 =>
  }

  lemma PositionsFrom10(i: nat)
    requires 10 <= i < 15
    ensures IndexOf(GetAll[i]) == i
  {
    match i
    case 10 =>
    case 11 =>
    case 12 =>
    case 13 =>
    case 14 =>
  }

  lemma PositionsFrom15(i: nat)
    requires 15 <= i < 20
    ensures IndexOf(GetAll[i]) == i
  {
    match i
    case 15 =>
    case 16 =>
    case 17 =>
    case 18 =>
    case 19 =>
  }

  lemma PositionsFrom20(i: nat)
    requires 20 <= i < 25
    ensures IndexOf(GetAll[i]) == i
  {
    match i
    case 20 =>
    case 21 =>
    case 22 =>
    case 23 =>
    case 24 =>
  }

  lemma PositionsFrom25(i: nat)
    requires 25 <= i < 30
    ensures IndexOf(GetAll[i]) == i
  {
    match i
    case 25 =>
    case 26 =>
    case 27 =>
    case 28 =>
    case 29 =>
  }

  lemma PositionsFrom30(i: nat)
    requires 30 <= i < 35
    ensures IndexOf(GetAll[i]) == i
  {
    match i
    case 30 =>
    case 31 =>
    case 32 =>
    case 33 =>
    case 34 =>
  }

  lemma PositionsFrom35(i: nat)
    requires 35 <= i < 41
    ensures IndexOf(GetAll[i]) == i
  {
    match i
    case 35 =>
    case 36 =>
    case 37 =>
    case 38 =>
    case 39 =>
    case 40 =>
  }

  /** The table is in strictly ascending raw-value order. */
  lemma GetAllAscending()
    ensures forall i, j :: 0 <= i < j < |GetAll| ==> RawValue(GetAll[i]) < RawValue(GetAll[j])
  {
    forall i, j | 0 <= i < j < |GetAll| ensures RawValue(GetAll[i]) < RawValue(GetAll[j]) {
      PositionHoldsItsCase(i);
      PositionHoldsItsCase(j);
      RawValueAtPosition(GetAll[i]);
      RawValueAtPosition(GetAll[j]);
      CodeAtAscending(i, j);
    }
  }

  /** Distinct cases have distinct raw values. */
  lemma RawValueInjective(a: StatusCode, b: StatusCode)
    ensures RawValue(a) == RawValue(b) ==> a == b
  {
    RawValueAtPosition(a);
    RawValueAtPosition(b);
    var i, j := IndexOf(a), IndexOf(b);
    if i < j {
      CodeAtAscending(i, j);
    } else if j < i {
      CodeAtAscending(j, i);
    }
  }

  /** The table has 41 entries and lists every case exactly once. */
  lemma GetAllListsEveryCaseOnce()
    ensures |GetAll| == 41
    ensures forall s: StatusCode :: s in GetAll
    ensures forall i, j :: 0 <= i < j < |GetAll| ==> GetAll[i] != GetAll[j]
  {
    forall s: StatusCode ensures s in GetAll {
      assert GetAll[IndexOf(s)] == s;
    }
    GetAllAscending();
  }
}
