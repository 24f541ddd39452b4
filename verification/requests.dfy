/** Asynchronous requests as the API sees them: the stored request record, the
    projection of its five-valued status onto the three job states a client
    can see, the response each request type answers with, and the `Location`
    under which a newly queued request can be polled. */
module Requests {
  import opened Wrappers

  type RequestId = string

  datatype RequestType =
    | FreischaltCodeRequest
    | FreischaltCodeActivate
    | FreischaltCodeRevocate
    | CheckTaxNumber
    | SendEst
    | Grundsteuer

  /** The lifecycle of a stored request; a new record starts as `New`. */
  datatype Status = New | Scheduled | Processing | Success | Failed

  /** The state a polling client is told. */
  datatype JobState = PROCESSING | SUCCESS | FAILURE

  /** A JSON value inside a payload or a result dictionary. */
  datatype Value = Text(text: string) | Truth(truth: bool)

  type Dict = map<string, Value>

  datatype EricaRequest = EricaRequest(
    requestType: RequestType,
    status: Status,
    payload: Dict,
    requestId: RequestId,
    result: Option<Dict>,
    errorCode: Option<string>,
    errorMessage: Option<string>,
    creatorId: string)

  /** The statuses a client sees as `j`, defined independently of `MapStatus`. */
  function Preimage(j: JobState): set<Status> {
    match j
    case PROCESSING => {New, Scheduled, Processing}
    case SUCCESS => {Status.Success}
    case FAILURE => {Failed}
  }

  /** The projection of a stored status onto a job state: everything that has
      not finished yet is still processing. */
  function MapStatus(s: Status): (j: JobState)
    ensures j == SUCCESS <==> s == Status.Success
    ensures j == FAILURE <==> s == Failed
  {
    match s
    case Success => SUCCESS
    case Failed => FAILURE
    case _ => PROCESSING
  }

  /** `MapStatus` and `Preimage` describe the same relation, and every job
      state is reached. */
  lemma MapStatusPreimage(s: Status, j: JobState)
    ensures MapStatus(s) == j <==> s in Preimage(j)
    ensures Preimage(j) != {}
  {
    match j
    case PROCESSING => assert New in Preimage(j);
    case SUCCESS => assert Status.Success in Preimage(j);
    case FAILURE => assert Failed in Preimage(j);
  }

  /** The result object of a successful request, one shape per endpoint. The
      identification number `idnr` comes from the request payload, the other
      fields from the stored result dictionary. */
  datatype ResultDto =
    | RequestAndActivation(elsterRequestId: Value, transferTicket: Value, idnr: Option<Value>)
    | TransferTicketAndIdnr(transferTicket: Value, idnr: Option<Value>)
    | TaxNumberValidity(isValid: Value)
    | TransferTicketAndPdf(transferTicket: Value, pdf: Value)

  datatype Response = Response(
    processStatus: JobState,
    result: Option<ResultDto>,
    errorCode: Option<string>,
    errorMessage: Option<string>)

  /** Why the projection itself fails: a successful record without a result
      dictionary, or with a result that lacks a key the endpoint reads
      (`KeyError` in Python). */
  datatype ProjectionError = NoResult | MissingKey(key: string)

  /** The result keys an endpoint reads, in the order it reads them. */
  function ResultKeys(t: RequestType): seq<string> {
    match t
    case FreischaltCodeRequest => ["elster_request_id", "transfer_ticket"]
    case FreischaltCodeActivate => ["elster_request_id", "transfer_ticket"]
    case FreischaltCodeRevocate => ["transfer_ticket"]
    case CheckTaxNumber => ["is_valid"]
    case SendEst => ["transfer_ticket", "pdf"]
    case Grundsteuer => ["transfer_ticket", "pdf"]
  }

  /** Whether the endpoint of `t` also reports the payload's `idnr`. */
  predicate ReportsIdnr(t: RequestType) {
    t.FreischaltCodeRequest? || t.FreischaltCodeActivate? || t.FreischaltCodeRevocate?
  }

  /** Reads a result object back by the key it was filled from. */
  function Field(d: ResultDto, key: string): Option<Value> {
    match d
    case RequestAndActivation(e, tt, _) =>
      if key == "elster_request_id" then Some(e) else if key == "transfer_ticket" then Some(tt) else None
    case TransferTicketAndIdnr(tt, _) =>
      if key == "transfer_ticket" then Some(tt) else None
    case TaxNumberValidity(v) =>
      if key == "is_valid" then Some(v) else None
    case TransferTicketAndPdf(tt, p) =>
      if key == "transfer_ticket" then Some(tt) else if key == "pdf" then Some(p) else None
  }

  /** The payload identification number a result object carries, if its shape
      has that field. */
  function IdnrOf(d: ResultDto): Option<Option<Value>> {
    match d
    case RequestAndActivation(_, _, i) => Some(i)
    case TransferTicketAndIdnr(_, i) => Some(i)
    case _ => None
  }

  /** Python's `dict.get`: a missing key reads as `None`. */
  function Lookup(d: Dict, key: string): (r: Option<Value>)
    ensures r.Some? <==> key in d
    ensures r.Some? ==> r.value == d[key]
  {
    if key in d then Some(d[key]) else None
  }

  /** The first key of `keys` that `d` lacks. */
  function FirstMissing(d: Dict, keys: seq<string>): (r: Option<string>)
    ensures r.None? <==> forall k <- keys :: k in d
    ensures r.Some? ==> r.value in keys && r.value !in d
  {
    if keys == [] then None
    else if keys[0] !in d then Some(keys[0])
    else FirstMissing(d, keys[1..])
  }

  /** Builds the result object of a successful request of type `t`. */
  function BuildResult(t: RequestType, result: Dict, payload: Dict): (d: ResultDto)
    requires forall k <- ResultKeys(t) :: k in result
  {
    match t
    case FreischaltCodeRequest =>
      RequestAndActivation(result["elster_request_id"], result["transfer_ticket"], Lookup(payload, "idnr"))
    case FreischaltCodeActivate =>
      RequestAndActivation(result["elster_request_id"], result["transfer_ticket"], Lookup(payload, "idnr"))
    case FreischaltCodeRevocate =>
      TransferTicketAndIdnr(result["transfer_ticket"], Lookup(payload, "idnr"))
    case CheckTaxNumber => TaxNumberValidity(result["is_valid"])
    case SendEst => TransferTicketAndPdf(result["transfer_ticket"], result["pdf"])
    case Grundsteuer => TransferTicketAndPdf(result["transfer_ticket"], result["pdf"])
  }

  /** The result object carries exactly the result entries its endpoint reads
      and, for the unlock-code endpoints, the payload's `idnr`. */
  lemma BuildResultFields(t: RequestType, result: Dict, payload: Dict)
    requires forall k <- ResultKeys(t) :: k in result
    ensures forall k :: k in ResultKeys(t) ==> Field(BuildResult(t, result, payload), k) == Some(result[k])
    ensures forall k :: k !in ResultKeys(t) ==> Field(BuildResult(t, result, payload), k).None?
    ensures IdnrOf(BuildResult(t, result, payload)) == if ReportsIdnr(t) then Some(Lookup(payload, "idnr")) else None
  {
  }

  /** The polling response for a stored request: its mapped status, the result
      exactly when it succeeded, the error fields exactly when it failed. */
  function Project(req: EricaRequest): (r: Result<Response, ProjectionError>)
    ensures r.Success? ==> r.value.processStatus == MapStatus(req.status)
    ensures r.Success? ==> (r.value.result.Some? <==> req.status == Status.Success)
    ensures MapStatus(req.status) != FAILURE ==> r.Success? ==> r.value.errorCode.None? && r.value.errorMessage.None?
    ensures MapStatus(req.status) == FAILURE ==>
      r.Success? && r.value.errorCode == req.errorCode && r.value.errorMessage == req.errorMessage
    ensures r.Failure? <==>
      req.status == Status.Success && (req.result.None? || exists k :: k in ResultKeys(req.requestType) && k !in req.result.value)
    ensures r.Failure? && req.result.None? ==> r.error == NoResult
    ensures r.Failure? && req.result.Some? ==>
      r.error.MissingKey? && r.error.key in ResultKeys(req.requestType) && r.error.key !in req.result.value
  {
    var state := MapStatus(req.status);
    if state == SUCCESS then
      match req.result
      case None => Failure(NoResult)
      case Some(result) =>
        match FirstMissing(result, ResultKeys(req.requestType))
        case Some(k) => Failure(MissingKey(k))
        case None => Result.Success(Response(state, Some(BuildResult(req.requestType, result, req.payload)), None, None))
    else if state == FAILURE then
      Result.Success(Response(state, None, req.errorCode, req.errorMessage))
    else
      Result.Success(Response(state, None, None, None))
  }

  /** The projection of a successful request reads its result object from the
      stored result and payload. */
  lemma ProjectSuccessCarriesResult(req: EricaRequest)
    requires Project(req).Success? && req.status == Status.Success
    ensures req.result.Some?
    ensures forall k :: k in ResultKeys(req.requestType) ==>
      Field(Project(req).value.result.value, k) == Some(req.result.value[k])
    ensures IdnrOf(Project(req).value.result.value) ==
      if ReportsIdnr(req.requestType) then Some(Lookup(req.payload, "idnr")) else None
  {
    BuildResultFields(req.requestType, req.result.value, req.payload);
  }

  /** The projection branches on the mapped status only: two statuses that map
      to the same job state give the same response. */
  lemma ProjectDependsOnMappedStatus(req: EricaRequest, s: Status)
    requires MapStatus(s) == MapStatus(req.status)
    ensures Project(req.(status := s)) == Project(req)
  {
  }

  /** The body the API returns for an id nobody stored. */
  const ENTITY_NOT_FOUND_CODE: int := -1
  const ENTITY_NOT_FOUND_MESSAGE: string := "Raised in case an entity could not be found in the database"

  /** The endpoint path a request type is polled under. */
  function Prefix(t: RequestType): string {
    match t
    case FreischaltCodeRequest => "fsc/request/"
    case FreischaltCodeActivate => "fsc/activation/"
    case FreischaltCodeRevocate => "fsc/revocation/"
    case CheckTaxNumber => "tax_number_validity/"
    case SendEst => "ests/"
    case Grundsteuer => "grundsteuer/"
  }

  /** The `Location` header of a queued request. */
  function Location(t: RequestType, id: RequestId): (loc: string)
    ensures |loc| == |Prefix(t)| + |id|
    ensures loc[..|Prefix(t)|] == Prefix(t) && loc[|Prefix(t)|..] == id
  {
    Prefix(t) + id
  }

  /** Recovers the request type and id from a `Location` header. */
  function ParseLocation(loc: string): (r: Option<(RequestType, RequestId)>)
    ensures r.Some? ==> Location(r.value.0, r.value.1) == loc
  {
    if Prefix(FreischaltCodeRequest) <= loc then Some((FreischaltCodeRequest, loc[|Prefix(FreischaltCodeRequest)|..]))
    else if Prefix(FreischaltCodeActivate) <= loc then Some((FreischaltCodeActivate, loc[|Prefix(FreischaltCodeActivate)|..]))
    else if Prefix(FreischaltCodeRevocate) <= loc then Some((FreischaltCodeRevocate, loc[|Prefix(FreischaltCodeRevocate)|..]))
    else if Prefix(CheckTaxNumber) <= loc then Some((CheckTaxNumber, loc[|Prefix(CheckTaxNumber)|..]))
    else if Prefix(SendEst) <= loc then Some((SendEst, loc[|Prefix(SendEst)|..]))
    else if Prefix(Grundsteuer) <= loc then Some((Grundsteuer, loc[|Prefix(Grundsteuer)|..]))
    else None
  }

  /** Two different endpoint paths never start one another: they differ at
      some position both have. */
  lemma PrefixesDisjoint(t: RequestType, u: RequestType)
    requires t != u
    ensures exists i :: 0 <= i < |Prefix(t)| && i < |Prefix(u)| && Prefix(t)[i] != Prefix(u)[i]
  {
    var i: int;
    if t.FreischaltCodeRequest? || t.FreischaltCodeActivate? || t.FreischaltCodeRevocate? {
      if !(u.FreischaltCodeRequest? || u.FreischaltCodeActivate? || u.FreischaltCodeRevocate?) { i := 0; }
      else if t.FreischaltCodeActivate? || u.FreischaltCodeActivate? { i := 4; }
      else { i := 6; }
    } else {
      i := 0;
    }
    assert Prefix(t)[i] != Prefix(u)[i];
  }

  /** A `Location` header names its request: parsing it gives back the type
      and the id it was built from. */
  lemma {:induction false} LocationRoundTrip(t: RequestType, id: RequestId)
    ensures ParseLocation(Location(t, id)) == Some((t, id))
  {
    var loc := Location(t, id);
    forall u | u != t
      ensures !(Prefix(u) <= loc)
    {
      PrefixesDisjoint(t, u);
      var i :| 0 <= i < |Prefix(t)| && i < |Prefix(u)| && Prefix(t)[i] != Prefix(u)[i];
      assert loc[i] == Prefix(t)[i];
    }
  }

  /** Different requests are polled under different locations. */
  lemma LocationInjective(t: RequestType, id: RequestId, u: RequestType, id': RequestId)
    requires Location(t, id) == Location(u, id')
    ensures t == u && id == id'
  {
    LocationRoundTrip(t, id);
    LocationRoundTrip(u, id');
  }
}
