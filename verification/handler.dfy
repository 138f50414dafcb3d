/** The HTTP layer: reading the id from the request path and choosing each handler's response.
    A handler's writes to the `http.ResponseWriter` are modelled by the response it returns; the
    business layer it calls is a parameter, and the response records which call, if any, was made. */
module Handler {
  import opened Wrappers
  import opened GoInt
  import opened Decimal
  import opened StrConv
  import Domain
  import Repository

  /** The status codes the handlers write. */
  datatype Status = OK | BadRequest | NotFound | InternalServerError

  function Code(s: Status): int {
    match s
    case OK => 200
    case BadRequest => 400
    case NotFound => 404
    case InternalServerError => 500
  }

  /** Why `getIdFromRequest` refused the path variable. */
  datatype IdError = Unparsable(cause: NumError) | ZeroId

  /** `getIdFromRequest`: the path variable parsed as a base-10 `int64`, where 0 is refused too. */
  function IdFromRequest(pathId: string): (r: Result<Int64, IdError>)
    ensures r.Ok? <==> IsLiteral(pathId) && LiteralValue(pathId) != 0
                       && MinInt64 <= LiteralValue(pathId) <= MaxInt64
    ensures r.Ok? ==> r.value as int == LiteralValue(pathId)
    ensures r == Err(ZeroId) <==> IsLiteral(pathId) && LiteralValue(pathId) == 0
  {
    ParseIntMeaning(pathId);
    match ParseInt(pathId)
    case Err(e) => Err(Unparsable(e))
    case Ok(id) => if id == 0 then Err(ZeroId) else Ok(id)
  }

  /** The route only hands `[0-9]+` to the handlers. For such a path variable the id is accepted
      exactly when its value lies in 1..MaxInt64, and is then that value, so every accepted id is
      positive; a value of 0 (written with any number of zeros) is refused as zero, and a value
      beyond MaxInt64 as out of range. */
  lemma RoutedId(pathId: string)
    requires IsDigits(pathId)
    ensures IdFromRequest(pathId).Ok? <==> 0 < Value(pathId) <= MaxInt64
    ensures IdFromRequest(pathId).Ok? ==> IdFromRequest(pathId).value as int == Value(pathId) > 0
    ensures Value(pathId) == 0 ==> IdFromRequest(pathId) == Err(ZeroId)
    ensures Value(pathId) > MaxInt64 ==> IdFromRequest(pathId) == Err(Unparsable(ErrRange))
  {
    assert !HasSign(pathId);
    assert Unsigned(pathId) == pathId;
    ParseIntMeaning(pathId);
  }

  /** The path `/services/<n>` built with `%d` from a positive id reads back as that id. */
  lemma FormattedIdRoundTrip(n: Int64)
    requires n > 0
    ensures IdFromRequest(Format(n as nat)) == Ok(n)
  {
    RoutedId(Format(n as nat));
    FormatRoundTrip(n as nat);
  }

  /** `getIdFromRequest` by itself accepts a signed id: it is the route pattern alone that keeps
      negative ids away from the handlers. */
  lemma SignedIdsParse(n: Int64)
    requires n > 0
    ensures IdFromRequest("-" + Format(n as nat)) == Ok(-n)
    ensures IdFromRequest("+" + Format(n as nat)) == Ok(n)
  {
    var digits := Format(n as nat);
    FormatRoundTrip(n as nat);
    assert Unsigned("-" + digits) == digits;
    assert Unsigned("+" + digits) == digits;
  }

  /** What a handler writes as the body. `Text` is the message `http.Error` writes;
      `IdErrorText` is the text of the id error. */
  datatype Body =
    | NoBody
    | Text(message: string)
    | IdErrorText(error: IdError)
    | ServiceJson(service: Domain.Service)
    | ServiceListJson(services: seq<Domain.Service>)

  /** The business-layer call a handler makes. */
  datatype Call =
    | CreateCall(service: Domain.Service)
    | GetByIDCall(id: Int64)
    | GetAllCall
    | DeleteCall(id: Int64)
    | UpdateCall(id: Int64, input: Domain.UpdateService)

  datatype Response = Response(status: Status, body: Body, call: Option<Call>)

  /** What reading the request body (`io.ReadAll`) and decoding it (`json.Unmarshal`) produced. */
  datatype Decoded<T> = ReadFailed | Malformed | Decoded(value: T)

  /** Whether a business-layer error is reported as "not found" (`errors.Is(err, ErrServiceNotFound)`). */
  predicate IsNotFound(err: Domain.Error) {
    Domain.Is(err, Domain.ErrServiceNotFound)
  }

  /** `createService`: a body that cannot be read or decoded is a bad request and the service is
      not called; otherwise the decoded service is created, and a failure is a server error. */
  function CreateService(body: Decoded<Domain.Service>, create: Domain.Service -> Option<Domain.Error>): (r: Response)
    ensures r.status == BadRequest <==> !body.Decoded?
    ensures r.call.Some? <==> body.Decoded?
    ensures body.Decoded? ==> r.call == Some(CreateCall(body.value))
    ensures r.status == OK <==> body.Decoded? && create(body.value).None?
    ensures r.status != NotFound && r.body == NoBody
  {
    match body
    case ReadFailed => Response(BadRequest, NoBody, None)
    case Malformed => Response(BadRequest, NoBody, None)
    case Decoded(service) =>
      if create(service).Some? then Response(InternalServerError, NoBody, Some(CreateCall(service)))
      else Response(OK, NoBody, Some(CreateCall(service)))
  }

  /** `getServiceByID`: a bad id is a bad request and the service is not called; a not-found error
      is 404, any other error (or a JSON encoding failure) 500; otherwise the service is written as
      JSON with the implicit 200. */
  function GetServiceByID(pathId: string, getById: Int64 -> Repository.Lookup, marshals: Domain.Service -> bool)
    : (r: Response)
    ensures r.status == BadRequest <==> IdFromRequest(pathId).Err?
    ensures r.call.Some? <==> IdFromRequest(pathId).Ok?
    ensures IdFromRequest(pathId).Ok? ==> r.call == Some(GetByIDCall(IdFromRequest(pathId).value))
    ensures r.status == NotFound <==>
              IdFromRequest(pathId).Ok? && var found := getById(IdFromRequest(pathId).value);
              found.err.Some? && IsNotFound(found.err.value)
    ensures r.status == OK <==>
              IdFromRequest(pathId).Ok? && var found := getById(IdFromRequest(pathId).value);
              found.err.None? && marshals(found.service)
    ensures r.status == OK ==> r.body == ServiceJson(getById(IdFromRequest(pathId).value).service)
  {
    match IdFromRequest(pathId)
    case Err(e) => Response(BadRequest, IdErrorText(e), None)
    case Ok(id) =>
      var found := getById(id);
      if found.err.Some? then
        if IsNotFound(found.err.value) then Response(NotFound, Text("Service not found"), Some(GetByIDCall(id)))
        else Response(InternalServerError, Text("Internal Server Error"), Some(GetByIDCall(id)))
      else if !marshals(found.service) then
        Response(InternalServerError, Text("Internal Server Error"), Some(GetByIDCall(id)))
      else Response(OK, ServiceJson(found.service), Some(GetByIDCall(id)))
  }

  /** `getAllServices`: the service is always called; an error or a JSON encoding failure is 500,
      otherwise the list is written as JSON with the implicit 200. */
  function GetAllServices(services: seq<Domain.Service>, err: Option<Domain.Error>, marshals: bool): (r: Response)
    ensures r.call == Some(GetAllCall)
    ensures r.status == OK <==> err.None? && marshals
    ensures r.status != OK ==> r.status == InternalServerError
    ensures r.status == OK ==> r.body == ServiceListJson(services)
  {
    if err.Some? then Response(InternalServerError, NoBody, Some(GetAllCall))
    else if !marshals then Response(InternalServerError, NoBody, Some(GetAllCall))
    else Response(OK, ServiceListJson(services), Some(GetAllCall))
  }

  /** `deleteService`: a bad id is a bad request and the service is not called; every error of the
      service, a not-found one included, is 500. */
  function DeleteService(pathId: string, delete: Int64 -> Option<Domain.Error>): (r: Response)
    ensures r.status == BadRequest <==> IdFromRequest(pathId).Err?
    ensures r.call.Some? <==> IdFromRequest(pathId).Ok?
    ensures IdFromRequest(pathId).Ok? ==> r.call == Some(DeleteCall(IdFromRequest(pathId).value))
    ensures r.status == OK <==> IdFromRequest(pathId).Ok? && delete(IdFromRequest(pathId).value).None?
    ensures r.status != NotFound && r.body == NoBody
  {
    match IdFromRequest(pathId)
    case Err(_) => Response(BadRequest, NoBody, None)
    case Ok(id) =>
      if delete(id).Some? then Response(InternalServerError, NoBody, Some(DeleteCall(id)))
      else Response(OK, NoBody, Some(DeleteCall(id)))
  }

  /** `updateService`: a bad id, then an unreadable or malformed body, is a bad request and the
      service is not called; otherwise the update is made, and a failure is a server error. */
  function UpdateService(
    pathId: string,
    body: Decoded<Domain.UpdateService>,
    update: (Int64, Domain.UpdateService) -> Option<Domain.Error>)
    : (r: Response)
    ensures r.status == BadRequest <==> IdFromRequest(pathId).Err? || !body.Decoded?
    ensures r.call.Some? <==> IdFromRequest(pathId).Ok? && body.Decoded?
    ensures r.call.Some? ==> r.call == Some(UpdateCall(IdFromRequest(pathId).value, body.value))
    ensures r.status == OK <==>
              IdFromRequest(pathId).Ok? && body.Decoded? && update(IdFromRequest(pathId).value, body.value).None?
    ensures r.status != NotFound && r.body == NoBody
  {
    match IdFromRequest(pathId)
    case Err(_) => Response(BadRequest, NoBody, None)
    case Ok(id) =>
      match body
      case ReadFailed => Response(BadRequest, NoBody, None)
      case Malformed => Response(BadRequest, NoBody, None)
      case Decoded(input) =>
        if update(id, input).Some? then Response(InternalServerError, NoBody, Some(UpdateCall(id, input)))
        else Response(OK, NoBody, Some(UpdateCall(id, input)))
  }

  /** For a routed path, get and delete, and update when its body was read and decoded, answer 400
      exactly when the id's value is 0 or does not fit in an `int64`. (Update also answers 400 when
      the body cannot be read or decoded, whatever the id.) */
  lemma RoutedBadRequest(
    pathId: string,
    getById: Int64 -> Repository.Lookup,
    marshals: Domain.Service -> bool,
    delete: Int64 -> Option<Domain.Error>,
    input: Domain.UpdateService,
    update: (Int64, Domain.UpdateService) -> Option<Domain.Error>)
    requires IsDigits(pathId)
    ensures GetServiceByID(pathId, getById, marshals).status == BadRequest <==> Value(pathId) == 0 || Value(pathId) > MaxInt64
    ensures DeleteService(pathId, delete).status == BadRequest <==> Value(pathId) == 0 || Value(pathId) > MaxInt64
    ensures UpdateService(pathId, Decoded(input), update).status == BadRequest <==> Value(pathId) == 0 || Value(pathId) > MaxInt64
  {
    RoutedId(pathId);
  }

  /** The status codes each handler can write: only reading by id ever answers 404, and listing
      never answers 400. */
  lemma HandlerCodes(
    pathId: string,
    body: Decoded<Domain.Service>,
    create: Domain.Service -> Option<Domain.Error>,
    getById: Int64 -> Repository.Lookup,
    marshals: Domain.Service -> bool,
    services: seq<Domain.Service>,
    listErr: Option<Domain.Error>,
    listMarshals: bool,
    delete: Int64 -> Option<Domain.Error>,
    updateBody: Decoded<Domain.UpdateService>,
    update: (Int64, Domain.UpdateService) -> Option<Domain.Error>)
    ensures Code(CreateService(body, create).status) in {200, 400, 500}
    ensures Code(GetServiceByID(pathId, getById, marshals).status) in {200, 400, 404, 500}
    ensures Code(GetAllServices(services, listErr, listMarshals).status) in {200, 500}
    ensures Code(DeleteService(pathId, delete).status) in {200, 400, 500}
    ensures Code(UpdateService(pathId, updateBody, update).status) in {200, 400, 500}
  {
  }

  /** Reading an id that has no row: the store's `sql.ErrNoRows` (bare or wrapped) becomes
      `ErrServiceNotFound` in the data-access layer and 404 in the handler. */
  lemma MissingRowIsNotFound(pathId: string, scanned: Domain.Service, scanErr: Domain.Error, marshals: Domain.Service -> bool)
    requires IdFromRequest(pathId).Ok?
    requires Domain.Is(scanErr, Domain.ErrNoRows)
    ensures GetServiceByID(pathId, id => Repository.GetByID(scanned, Some(scanErr)), marshals).status == NotFound
  {
  }

  /** Deleting: when `Exec` reports no error the client gets 200, even if no row was deleted; when
      it reports `sql.ErrNoRows`, the translated not-found error still reaches the client as 500. */
  lemma DeleteOutcomes(pathId: string, exec: Int64 -> Repository.ExecResult)
    requires IdFromRequest(pathId).Ok?
    ensures exec(IdFromRequest(pathId).value).err.None? ==>
              DeleteService(pathId, id => Repository.Delete(exec(id))).status == OK
    ensures exec(IdFromRequest(pathId).value).err == Some(Domain.ErrNoRows) ==>
              DeleteService(pathId, id => Repository.Delete(exec(id))).status == InternalServerError
  {
  }
}
