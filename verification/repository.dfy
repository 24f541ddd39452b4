/** The request repository: a finite map from request id to the stored record
    and its two timestamps. The database clock is the parameter `now`. */
module Repository {
  import opened Wrappers
  import opened Requests

  type Timestamp = int

  datatype Row = Row(entity: EricaRequest, createdAt: Timestamp, updatedAt: Timestamp)

  type Store = map<RequestId, Row>

  /** `EntityNotFoundError`, and the clash of a re-keyed record with another
      stored one. */
  datatype RepositoryError = EntityNotFound(id: RequestId) | AlreadyExists(id: RequestId)

  /** Every row is stored under its own request id and was not updated before
      it was created. */
  predicate Valid(store: Store) {
    forall id :: id in store ==> store[id].entity.requestId == id && store[id].createdAt <= store[id].updatedAt
  }

  /** No row carries a timestamp later than `now`. */
  predicate NotAfter(store: Store, now: Timestamp) {
    forall id :: id in store ==> store[id].updatedAt <= now
  }

  /** Stores `e` with both timestamps set to `now`. */
  function Create(store: Store, now: Timestamp, e: EricaRequest): (r: Result<(Store, Row), RepositoryError>)
    ensures r.Failure? <==> e.requestId in store
    ensures r.Failure? ==> r.error == AlreadyExists(e.requestId)
    ensures r.Success? ==> r.value.1.entity == e && r.value.1.createdAt == now && r.value.1.updatedAt == now
    ensures r.Success? ==> r.value.0.Keys == store.Keys + {e.requestId} && r.value.0[e.requestId] == r.value.1
    ensures r.Success? ==> forall id :: id in store ==> r.value.0[id] == store[id]
    ensures r.Success? && Valid(store) ==> Valid(r.value.0)
  {
    if e.requestId in store then Failure(AlreadyExists(e.requestId))
    else
      var row := Row(e, now, now);
      Result.Success((store[e.requestId := row], row))
  }

  /** The stored record of `id`. */
  function Get(store: Store, id: RequestId): (r: Result<EricaRequest, RepositoryError>)
    ensures r.Success? <==> id in store
    ensures r.Success? ==> r.value == store[id].entity
    ensures r.Failure? ==> r.error == EntityNotFound(id)
  {
    if id in store then Result.Success(store[id].entity) else Failure(EntityNotFound(id))
  }

  /** The attributes of a record, each of which an update may write. */
  datatype Field =
    | TypeField | StatusField | PayloadField | RequestIdField
    | ResultField | ErrorCodeField | ErrorMessageField | CreatorIdField

  const AllFields: set<Field> :=
    {TypeField, StatusField, PayloadField, RequestIdField, ResultField, ErrorCodeField, ErrorMessageField, CreatorIdField}

  datatype FieldValue =
    | TypeValue(t: RequestType)
    | StatusValue(s: Status)
    | DictValue(d: Dict)
    | TextValue(text: string)
    | OptionalDictValue(od: Option<Dict>)
    | OptionalTextValue(ot: Option<string>)

  /** Reads one attribute of a record. */
  function Attribute(e: EricaRequest, f: Field): FieldValue {
    match f
    case TypeField => TypeValue(e.requestType)
    case StatusField => StatusValue(e.status)
    case PayloadField => DictValue(e.payload)
    case RequestIdField => TextValue(e.requestId)
    case ResultField => OptionalDictValue(e.result)
    case ErrorCodeField => OptionalTextValue(e.errorCode)
    case ErrorMessageField => OptionalTextValue(e.errorMessage)
    case CreatorIdField => TextValue(e.creatorId)
  }

  /** The attributes whose values differ between two records: what an update
      writes. */
  function Changed(before: EricaRequest, after: EricaRequest): (fs: set<Field>)
    ensures forall f :: f in fs <==> Attribute(before, f) != Attribute(after, f)
  {
    set f <- AllFields | Attribute(before, f) != Attribute(after, f)
  }

  /** Writes the attributes `fs` of `from` over `e`. */
  function Apply(e: EricaRequest, from: EricaRequest, fs: set<Field>): EricaRequest
  {
    EricaRequest(
      if TypeField in fs then from.requestType else e.requestType,
      if StatusField in fs then from.status else e.status,
      if PayloadField in fs then from.payload else e.payload,
      if RequestIdField in fs then from.requestId else e.requestId,
      if ResultField in fs then from.result else e.result,
      if ErrorCodeField in fs then from.errorCode else e.errorCode,
      if ErrorMessageField in fs then from.errorMessage else e.errorMessage,
      if CreatorIdField in fs then from.creatorId else e.creatorId)
  }

  /** Each attribute of the result comes from `from` when it is written and
      from `e` otherwise. */
  lemma ApplyAttribute(e: EricaRequest, from: EricaRequest, fs: set<Field>, f: Field)
    ensures Attribute(Apply(e, from, fs), f) == if f in fs then Attribute(from, f) else Attribute(e, f)
  {
  }

  /** Two records with the same attributes are the same record. */
  lemma AttributesDetermine(a: EricaRequest, b: EricaRequest)
    requires forall f :: Attribute(a, f) == Attribute(b, f)
    ensures a == b
  {
    assert Attribute(a, TypeField) == Attribute(b, TypeField);
    assert Attribute(a, StatusField) == Attribute(b, StatusField);
    assert Attribute(a, PayloadField) == Attribute(b, PayloadField);
    assert Attribute(a, RequestIdField) == Attribute(b, RequestIdField);
    assert Attribute(a, ResultField) == Attribute(b, ResultField);
    assert Attribute(a, ErrorCodeField) == Attribute(b, ErrorCodeField);
    assert Attribute(a, ErrorMessageField) == Attribute(b, ErrorMessageField);
    assert Attribute(a, CreatorIdField) == Attribute(b, CreatorIdField);
  }

  /** Writing only the changed attributes yields the new record, and nothing
      is written exactly when the records are equal. */
  lemma ChangedSuffices(before: EricaRequest, after: EricaRequest)
    ensures Apply(before, after, Changed(before, after)) == after
    ensures Changed(before, after) == {} <==> before == after
  {
    forall f ensures Attribute(Apply(before, after, Changed(before, after)), f) == Attribute(after, f) {
      ApplyAttribute(before, after, Changed(before, after), f);
    }
    AttributesDetermine(Apply(before, after, Changed(before, after)), after);
    if Changed(before, after) == {} {
      AttributesDetermine(before, after);
    }
  }

  /** What `update` did: the new store, the record it returns and the
      attributes the UPDATE statement wrote. */
  datatype Updated = Updated(store: Store, entity: EricaRequest, written: set<Field>)

  /** Replaces the record stored under `id` by `model`, writing only the
      attributes that changed; `created_at` stays, `updated_at` becomes `now`.
      A changed request id moves the row to its new key. */
  function Update(store: Store, now: Timestamp, id: RequestId, model: EricaRequest): (r: Result<Updated, RepositoryError>)
    ensures r.Failure? <==> id !in store || (model.requestId != id && model.requestId in store)
    ensures id !in store ==> r == Failure(EntityNotFound(id))
    ensures r.Success? ==> r.value.entity == model && r.value.written == Changed(store[id].entity, model)
    ensures r.Success? ==>
      && r.value.store.Keys == store.Keys - {id} + {model.requestId}
      && r.value.store[model.requestId] == Row(model, store[id].createdAt, now)
      && (forall k :: k in store && k != id ==> r.value.store[k] == store[k])
    ensures r.Success? && Valid(store) && store[id].updatedAt <= now ==> Valid(r.value.store)
  {
    if id !in store then Failure(EntityNotFound(id))
    else if model.requestId != id && model.requestId in store then Failure(AlreadyExists(model.requestId))
    else
      var before := store[id];
      var written := Changed(before.entity, model);
      var entity := Apply(before.entity, model, written);
      ChangedSuffices(before.entity, model);
      var row := Row(entity, before.createdAt, now);
      Result.Success(Updated((store - {id})[model.requestId := row], entity, written))
  }

  /** On a clock that has moved on since the last write, an update keeps the
      creation time and makes the update time strictly larger. */
  lemma UpdateAdvancesClock(store: Store, now: Timestamp, id: RequestId, model: EricaRequest)
    requires NotAfter(store, now - 1) && Update(store, now, id, model).Success?
    ensures Update(store, now, id, model).value.store[model.requestId].createdAt == store[id].createdAt
    ensures Update(store, now, id, model).value.store[model.requestId].updatedAt > store[id].updatedAt
  {
  }

  /** Removes the record stored under `id`; Python returns `True`. */
  function Delete(store: Store, id: RequestId): (r: Result<(Store, bool), RepositoryError>)
    ensures r.Failure? <==> id !in store
    ensures r.Failure? ==> r.error == EntityNotFound(id)
    ensures r.Success? ==> r.value.1 && r.value.0.Keys == store.Keys - {id}
    ensures r.Success? ==> forall k :: k in r.value.0 ==> r.value.0[k] == store[k]
  {
    if id !in store then Failure(EntityNotFound(id)) else Result.Success((store - {id}, true))
  }

  /** A created record can be read back, and deleting it restores the store. */
  lemma CreateGetDelete(store: Store, now: Timestamp, e: EricaRequest)
    requires e.requestId !in store
    ensures Get(Create(store, now, e).value.0, e.requestId) == Result.Success(e)
    ensures Delete(Create(store, now, e).value.0, e.requestId) == Result.Success((store, true))
  {
    var s' := Create(store, now, e).value.0;
    assert s' - {e.requestId} == store;
  }

  /** An updated record reads back as the model it was updated to, under the
      model's request id; the old id is gone when the id changed. */
  lemma UpdateThenGet(store: Store, now: Timestamp, id: RequestId, model: EricaRequest)
    requires Update(store, now, id, model).Success?
    ensures Get(Update(store, now, id, model).value.store, model.requestId) == Result.Success(model)
    ensures model.requestId != id ==> Get(Update(store, now, id, model).value.store, id) == Failure(EntityNotFound(id))
  {
  }
}
