/** The job side of a request: the unlock-code job step, which loads its
    entity, sends it to ELSTER and records the success, and the polling call
    that answers a client from the stored record. */
module Jobs {
  import opened Wrappers
  import opened EricErrors
  import opened Requests
  import Repository

  /** The unlock-code entity the job step works on. */
  datatype FreischaltCode = FreischaltCode(
    id: RequestId,
    payload: Dict,
    status: Status,
    elsterRequestId: Option<string>)

  /** The unlock-code repository: entities by id. */
  type CodeStore = map<RequestId, FreischaltCode>

  /** Every entity is stored under its own id. */
  predicate Keyed(store: CodeStore) {
    forall id :: id in store ==> store[id].id == id
  }

  datatype JobError = NotFound(id: RequestId) | Eric(error: EricError)

  /** One run of the job step: the repository afterwards, the payloads handed
      to `send_to_elster` in order, and the error the step raised, if any. */
  datatype JobRun = JobRun(store: CodeStore, sent: seq<Dict>, error: Option<JobError>)

  /** `request_freischalt_code(entity_id)`. `send` stands for the ELSTER
      service: it answers a payload with the response text or raises. The
      entity is loaded first, so a missing id sends nothing; a raised error
      propagates and nothing is written; on success the entity, marked
      successful and carrying the response, is written back under its own id. */
  function RequestFreischaltCode(store: CodeStore, entityId: RequestId,
                                 send: Dict -> Result<string, EricError>): (r: JobRun)
    requires Keyed(store)
    ensures entityId !in store ==> r == JobRun(store, [], Some(NotFound(entityId)))
    ensures entityId in store ==> r.sent == [store[entityId].payload]
    ensures entityId in store && send(store[entityId].payload).Failure? ==>
      r.store == store && r.error == Some(Eric(send(store[entityId].payload).error))
    ensures entityId in store && send(store[entityId].payload).Success? ==>
      && r.error.None?
      && r.store.Keys == store.Keys
      && r.store[entityId].status == Status.Success
      && r.store[entityId].elsterRequestId == Some(send(store[entityId].payload).value)
      && r.store[entityId].payload == store[entityId].payload
      && (forall id :: id in store && id != entityId ==> r.store[id] == store[id])
    ensures Keyed(r.store)
  {
    if entityId !in store then JobRun(store, [], Some(NotFound(entityId)))
    else
      var entity := store[entityId];
      match send(entity.payload)
      case Failure(e) => JobRun(store, [entity.payload], Some(Eric(e)))
      case Success(text) =>
        var done := entity.(elsterRequestId := Some(text), status := Status.Success);
        JobRun(store[done.id := done], [entity.payload], None)
  }

  /** The job step never loses an entity's data: whatever the outcome, the
      stored payload of every entity is the one it had, and only the entity
      the job ran for can change its status, and only to success. */
  lemma {:induction false} JobKeepsPayloads(store: CodeStore, entityId: RequestId,
                                          send: Dict -> Result<string, EricError>, id: RequestId)
    requires Keyed(store) && id in store
    ensures id in RequestFreischaltCode(store, entityId, send).store
    ensures RequestFreischaltCode(store, entityId, send).store[id].payload == store[id].payload
    ensures RequestFreischaltCode(store, entityId, send).store[id].status != store[id].status ==>
      id == entityId && RequestFreischaltCode(store, entityId, send).store[id].status == Status.Success
  {
    var r := RequestFreischaltCode(store, entityId, send);
    if entityId in store && send(store[entityId].payload).Success? && id == entityId {
      assert r.store[id].status == Status.Success;
    }
  }

  /** The body a polling endpoint answers with. */
  datatype JobResponse =
    | Answered(response: Response)
    | ErrorBody(errorCode: int, errorMessage: string)

  /** Answers a poll for `id`: the projection of the stored record, or the
      fixed not-found body when no record has that id. */
  function Poll(store: Repository.Store, id: RequestId): (r: Result<JobResponse, ProjectionError>)
    ensures id !in store ==> r == Result.Success(ErrorBody(ENTITY_NOT_FOUND_CODE, ENTITY_NOT_FOUND_MESSAGE))
    ensures id in store ==> (r.Success? <==> Project(store[id].entity).Success?)
    ensures id in store && r.Success? ==> r.value.Answered? && r.value.response.processStatus == MapStatus(store[id].entity.status)
  {
    match Repository.Get(store, id)
    case Failure(_) => Result.Success(ErrorBody(ENTITY_NOT_FOUND_CODE, ENTITY_NOT_FOUND_MESSAGE))
    case Success(req) =>
      match Project(req)
      case Failure(e) => Failure(e)
      case Success(resp) => Result.Success(Answered(resp))
  }

  /** Polling a request right after it was created reports it as processing,
      with neither a result nor error fields. */
  lemma PollAfterCreate(store: Repository.Store, now: Repository.Timestamp, e: EricaRequest)
    requires e.requestId !in store && e.status == New
    ensures Poll(Repository.Create(store, now, e).value.0, e.requestId) ==
      Result.Success(Answered(Response(PROCESSING, None, None, None)))
  {
  }
}
