/** The global exception handler: a total translation from the failure that
    escaped a request to the response sent back. The timestamp of the error
    body is left out. */
module ErrorTranslation {
  import opened Wrappers

  datatype HttpStatus = BadRequest | NotFound | InternalServerError {
    function Code(): (c: nat)
      ensures c == 400 <==> this == BadRequest
      ensures c == 404 <==> this == NotFound
      ensures c == 500 <==> this == InternalServerError
    {
      match this
      case BadRequest => 400
      case NotFound => 404
      case InternalServerError => 500
    }
  }

  /** One binding error: the rejected field and its default message, which a
      binding error may leave null (`None`). */
  datatype FieldError = FieldError(field: string, defaultMessage: Option<string>)

  /** The failures the handler distinguishes, by exception class. `message` is the
      exception's `getMessage()`, given as the exception built it. */
  datatype Failure =
    | MethodArgumentNotValid(fieldErrors: seq<FieldError>)
    | CustomerAlreadyExists(message: string)
    | ResourceNotFound(message: string)
    | Unclassified(message: string)

  datatype ErrorResponseDto = ErrorResponseDto(apiPath: string, errorCode: HttpStatus, errorMessage: string)

  datatype Body = ValidationErrors(errors: map<string, string>) | ErrorBody(dto: ErrorResponseDto)

  datatype ResponseEntity = ResponseEntity(body: Body, status: HttpStatus)

  /** Why `Collectors.toMap` without a merge function throws: a null value
      (`NullPointerException`) or a key seen twice (`IllegalStateException`). */
  datatype CollectFailure = NullMessage(field: string) | DuplicateKey(field: string)

  /** What the collection yields: the map, or the failure of the first field
      error it could not accept. */
  datatype Collected = Collected(errors: map<string, string>) | CollectFailed(failure: CollectFailure)

  /** A handler either answers or itself throws (only the validation handler can). */
  datatype Outcome = Responded(response: ResponseEntity) | HandlerFailed(failure: CollectFailure)

  predicate FieldsDistinct(fieldErrors: seq<FieldError>) {
    forall i, j :: 0 <= i < j < |fieldErrors| ==> fieldErrors[i].field != fieldErrors[j].field
  }

  predicate MessagesPresent(fieldErrors: seq<FieldError>) {
    forall i :: 0 <= i < |fieldErrors| ==> fieldErrors[i].defaultMessage.Some?
  }

  /** The field errors that collect into a map without throwing. */
  predicate Collectable(fieldErrors: seq<FieldError>) {
    FieldsDistinct(fieldErrors) && MessagesPresent(fieldErrors)
  }

  function FieldNames(fieldErrors: seq<FieldError>): set<string> {
    set i | 0 <= i < |fieldErrors| :: fieldErrors[i].field
  }

  /** `fieldErrors.stream().collect(toMap(getField, getDefaultMessage))`, in
      encounter order: each element's value is checked for null before its key
      is checked against the keys already collected. It succeeds exactly when
      every message is present and the field names are distinct, and then maps
      each field to its message and nothing else. */
  function ToMap(fieldErrors: seq<FieldError>): (r: Collected)
    ensures r.Collected? <==> Collectable(fieldErrors)
    ensures r.Collected? ==>
      && r.errors.Keys == FieldNames(fieldErrors)
      && forall i :: 0 <= i < |fieldErrors| ==>
           fieldErrors[i].defaultMessage.Some? && r.errors[fieldErrors[i].field] == fieldErrors[i].defaultMessage.value
    decreases |fieldErrors|
  {
    if fieldErrors == [] then Collected(map[])
    else
      var init, last := fieldErrors[..|fieldErrors| - 1], fieldErrors[|fieldErrors| - 1];
      PrefixFields(fieldErrors);
      match ToMap(init)
      case CollectFailed(f) => CollectFailed(f)
      case Collected(m) =>
        if last.defaultMessage.None? then CollectFailed(NullMessage(last.field))
        else if last.field in m then CollectFailed(DuplicateKey(last.field))
        else Collected(m[last.field := last.defaultMessage.value])
  }

  /** How the field names and messages of a non-empty list relate to those of its prefix. */
  lemma PrefixFields(fieldErrors: seq<FieldError>)
    requires fieldErrors != []
    ensures var init, last := fieldErrors[..|fieldErrors| - 1], fieldErrors[|fieldErrors| - 1];
      && FieldNames(fieldErrors) == FieldNames(init) + {last.field}
      && (FieldsDistinct(fieldErrors) <==> FieldsDistinct(init) && last.field !in FieldNames(init))
      && (MessagesPresent(fieldErrors) <==> MessagesPresent(init) && last.defaultMessage.Some?)
  {
    var init, last := fieldErrors[..|fieldErrors| - 1], fieldErrors[|fieldErrors| - 1];
    assert forall i :: 0 <= i < |init| ==> init[i] == fieldErrors[i];
    if FieldsDistinct(init) && last.field !in FieldNames(init) {
      forall i, j | 0 <= i < j < |fieldErrors| ensures fieldErrors[i].field != fieldErrors[j].field {
        if j == |fieldErrors| - 1 {
          assert fieldErrors[i].field in FieldNames(init);
        }
      }
    }
  }

  /** With distinct field names the map has one entry per field error. */
  lemma {:induction false} DistinctFieldsCount(fieldErrors: seq<FieldError>)
    requires FieldsDistinct(fieldErrors)
    ensures |FieldNames(fieldErrors)| == |fieldErrors|
    decreases |fieldErrors|
  {
    if fieldErrors != [] {
      var init := fieldErrors[..|fieldErrors| - 1];
      PrefixFields(fieldErrors);
      DistinctFieldsCount(init);
    }
  }

  /** When collecting fails, the failure is that of the first field error that
      cannot be accepted: every earlier one was accepted, and this one has a null
      message, or a present message under a field already collected. */
  lemma {:induction false} FirstFailureReported(fieldErrors: seq<FieldError>)
    requires ToMap(fieldErrors).CollectFailed?
    ensures var f := ToMap(fieldErrors).failure;
      exists j :: 0 <= j < |fieldErrors| && fieldErrors[j].field == f.field
        && Collectable(fieldErrors[..j])
        && (f.NullMessage? <==> fieldErrors[j].defaultMessage.None?)
        && (f.DuplicateKey? ==> fieldErrors[j].field in FieldNames(fieldErrors[..j]))
    decreases |fieldErrors|
  {
    var n := |fieldErrors|;
    var init, last := fieldErrors[..n - 1], fieldErrors[n - 1];
    PrefixFields(fieldErrors);
    if ToMap(init).CollectFailed? {
      FirstFailureReported(init);
      var f := ToMap(init).failure;
      var j :| 0 <= j < |init| && init[j].field == f.field
        && Collectable(init[..j])
        && (f.NullMessage? <==> init[j].defaultMessage.None?)
        && (f.DuplicateKey? ==> init[j].field in FieldNames(init[..j]));
      assert init[..j] == fieldErrors[..j];
    } else {
      assert init == fieldErrors[..n - 1];
    }
  }

  /** `handleMethodArgumentNotValid`: 400 with the field-to-message map, or the
      exception the collection throws. */
  function HandleMethodArgumentNotValid(fieldErrors: seq<FieldError>): (r: Outcome)
    ensures r.Responded? <==> Collectable(fieldErrors)
    ensures r.Responded? ==>
      && r.response.status == BadRequest
      && r.response.body.ValidationErrors?
      && r.response.body.errors.Keys == FieldNames(fieldErrors)
      && |r.response.body.errors| == |fieldErrors|
      && forall i :: 0 <= i < |fieldErrors| ==>
           fieldErrors[i].defaultMessage.Some?
           && r.response.body.errors[fieldErrors[i].field] == fieldErrors[i].defaultMessage.value
  {
    match ToMap(fieldErrors)
    case Collected(errors) =>
      DistinctFieldsCount(fieldErrors); Responded(ResponseEntity(ValidationErrors(errors), BadRequest))
    case CollectFailed(f) => HandlerFailed(f)
  }

  /** `handleCustomerAlreadyExistsException`. */
  function HandleCustomerAlreadyExists(message: string, requestDescription: string): (r: ResponseEntity)
    ensures r.status == BadRequest
    ensures r.body.ErrorBody? && r.body.dto.errorCode == r.status
    ensures r.body.dto.errorMessage == message && r.body.dto.apiPath == requestDescription
  {
    ResponseEntity(ErrorBody(ErrorResponseDto(requestDescription, BadRequest, message)), BadRequest)
  }

  /** `handleResourceNotFoundException`. */
  function HandleResourceNotFound(message: string, requestDescription: string): (r: ResponseEntity)
    ensures r.status == NotFound
    ensures r.body.ErrorBody? && r.body.dto.errorCode == r.status
    ensures r.body.dto.errorMessage == message && r.body.dto.apiPath == requestDescription
  {
    ResponseEntity(ErrorBody(ErrorResponseDto(requestDescription, NotFound, message)), NotFound)
  }

  /** `handleGlobalException`. */
  function HandleGlobalException(message: string, requestDescription: string): (r: ResponseEntity)
    ensures r.status == InternalServerError
    ensures r.body.ErrorBody? && r.body.dto.errorCode == r.status
    ensures r.body.dto.errorMessage == message && r.body.dto.apiPath == requestDescription
  {
    ResponseEntity(ErrorBody(ErrorResponseDto(requestDescription, InternalServerError, message)), InternalServerError)
  }

  /** The four shapes of answer. */
  datatype ReplyKind = ValidationReply | AlreadyExistsReply | NotFoundReply | ServerErrorReply

  /** The kind of answer each failure is meant to get. */
  function KindOf(failure: Failure): ReplyKind {
    match failure
    case MethodArgumentNotValid(_) => ValidationReply
    case CustomerAlreadyExists(_) => AlreadyExistsReply
    case ResourceNotFound(_) => NotFoundReply
    case Unclassified(_) => ServerErrorReply
  }

  /** Whether a response has the status and body shape of a kind of answer; an
      informational error body must also carry the response's own status. */
  predicate Shows(response: ResponseEntity, kind: ReplyKind) {
    match kind
    case ValidationReply =>
      response.status == BadRequest && response.body.ValidationErrors?
    case AlreadyExistsReply =>
      response.status == BadRequest && response.body.ErrorBody? && response.body.dto.errorCode == BadRequest
    case NotFoundReply =>
      response.status == NotFound && response.body.ErrorBody? && response.body.dto.errorCode == NotFound
    case ServerErrorReply =>
      response.status == InternalServerError && response.body.ErrorBody?
        && response.body.dto.errorCode == InternalServerError
  }

  /** The handler chosen for each failure: each exception class goes to the
      handler declared for it, and any other failure to the catch-all one.
      Every failure is answered, except a validation failure whose field
      errors do not collect; the answer has the shape meant for its kind. */
  function Handle(failure: Failure, requestDescription: string): (r: Outcome)
    ensures r.Responded? <==> !failure.MethodArgumentNotValid? || Collectable(failure.fieldErrors)
    ensures r.Responded? ==> Shows(r.response, KindOf(failure))
    ensures r.HandlerFailed? ==> ToMap(failure.fieldErrors) == CollectFailed(r.failure)
  {
    match failure
    case MethodArgumentNotValid(fieldErrors) => HandleMethodArgumentNotValid(fieldErrors)
    case CustomerAlreadyExists(message) => Responded(HandleCustomerAlreadyExists(message, requestDescription))
    case ResourceNotFound(message) => Responded(HandleResourceNotFound(message, requestDescription))
    case Unclassified(message) => Responded(HandleGlobalException(message, requestDescription))
  }

  /** Translation is total and exclusive: every failure whose field errors
      collect is answered, and the answer has exactly one shape, the one meant
      for its kind. */
  lemma ClassificationTotalAndExclusive(failure: Failure, requestDescription: string, kind: ReplyKind)
    requires failure.MethodArgumentNotValid? ==> Collectable(failure.fieldErrors)
    ensures Handle(failure, requestDescription).Responded?
    ensures Shows(Handle(failure, requestDescription).response, kind) <==> kind == KindOf(failure)
  {
  }

  /** A validation failure whose field errors do not collect is not answered:
      the handler itself throws, naming a field of the input. With every message
      present the cause is a repeated field; with distinct fields it is a null
      message. */
  lemma UncollectableFieldsFailTheHandler(fieldErrors: seq<FieldError>, requestDescription: string)
    requires !Collectable(fieldErrors)
    ensures var r := Handle(MethodArgumentNotValid(fieldErrors), requestDescription);
      && r.HandlerFailed?
      && r.failure.field in FieldNames(fieldErrors)
      && (MessagesPresent(fieldErrors) ==> r.failure.DuplicateKey?)
      && (FieldsDistinct(fieldErrors) ==> r.failure.NullMessage?)
  {
    FirstFailureReported(fieldErrors);
    var f := ToMap(fieldErrors).failure;
    var j :| 0 <= j < |fieldErrors| && fieldErrors[j].field == f.field
      && Collectable(fieldErrors[..j])
      && (f.NullMessage? <==> fieldErrors[j].defaultMessage.None?)
      && (f.DuplicateKey? ==> fieldErrors[j].field in FieldNames(fieldErrors[..j]));
    assert fieldErrors[j].field in FieldNames(fieldErrors);
    if f.DuplicateKey? {
      var i :| 0 <= i < j && fieldErrors[..j][i].field == fieldErrors[j].field;
      assert fieldErrors[i].field == fieldErrors[j].field;
    }
  }

  /** Every error body passes the exception's message and the request
      description through unchanged, under the status of the response. */
  lemma ErrorBodyPassesThrough(failure: Failure, requestDescription: string)
    requires !failure.MethodArgumentNotValid?
    ensures var r := Handle(failure, requestDescription);
      && r.Responded? && r.response.body.ErrorBody?
      && r.response.body.dto.errorMessage == failure.message
      && r.response.body.dto.apiPath == requestDescription
      && r.response.body.dto.errorCode == r.response.status
  {
  }

  /** The status codes of the four kinds of answer. */
  lemma StatusCodes(failure: Failure, requestDescription: string)
    requires failure.MethodArgumentNotValid? ==> Collectable(failure.fieldErrors)
    ensures var code := Handle(failure, requestDescription).response.status.Code();
      && (failure.MethodArgumentNotValid? || failure.CustomerAlreadyExists? <==> code == 400)
      && (failure.ResourceNotFound? <==> code == 404)
      && (failure.Unclassified? <==> code == 500)
  {
  }
}
