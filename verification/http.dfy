/**
 Responses and the checks the three controller utility files share: body validation, id-format
 validation, the not-found check and the mapping of store errors to status codes. The three
 utility files repeat these with only the entity's noun or the conflict message changed; here
 each is written once with that text as a parameter.
 */
module Http {
  import opened Common
  import opened Chars
  import opened Patterns
  import opened Json
  import opened Rules
  import opened Ids
  import opened Messages

  /**
   A JSON response body: `{errorMessage}`, one record or a set of records. The error body carries
   a `Message`, whose text `Messages.Text` gives.
   */
  datatype Payload<R> =
    | ErrorBody(error: Message)
    | One(id: Id, record: R)
    | Many(records: map<Id, R>)

  datatype Response<R> = Response(status: nat, payload: Payload<R>)

  /** What a handler leaves behind: the response written and the collection afterwards. */
  datatype Outcome<R> = Outcome(response: Response<R>, store: map<Id, R>)

  /** An error thrown by the store: a unique-index violation (code 11000) or anything else. */
  datatype StoreError = DuplicateKey | Failure(message: string)

  function BadRequest<R>(m: Message): Response<R> {
    Response(400, ErrorBody(m))
  }

  /** `validateRequestFunction`: a 400 carrying the first violation, or nothing when valid. */
  function ValidateRequest<R>(schema: Schema, body: Body): (r: Option<Response<R>>)
    ensures r.None? <==> Conforms(schema, body)
    ensures r.Some? ==> r.value.status == 400
                        && r.value.payload == ErrorBody(Validate(schema, body).value)
  {
    match Validate(schema, body)
    case Some(m) => Some(BadRequest(m))
    case None => None
  }

  /** `isIDValid`: a 400 naming the entity and quoting the id, unless the id is 24 hex digits. */
  function CheckIdFormat<R>(entity: Entity, id: string): (r: Option<Response<R>>)
    ensures r.None? <==> IsObjectId(id)
    ensures r.Some? ==> r.value == BadRequest(InvalidId(entity, id))
  {
    if IsObjectId(id) then None
    else Some(BadRequest(InvalidId(entity, id)))
  }

  /** `isOrderExists` and its twins: a 404 exactly when the store returned no record. */
  function CheckFound<R, T>(entity: Entity, id: string, found: Option<T>): (r: Option<Response<R>>)
    ensures r.None? <==> found.Some?
    ensures r.Some? ==> r.value == Response(404, ErrorBody(NotFound(entity, id)))
  {
    match found
    case Some(_) => None
    case None => Some(Response(404, ErrorBody(NotFound(entity, id))))
  }

  /** `handleError`: a duplicate key becomes 409 with the entity's message, anything else 500. */
  function HandleError<R>(conflict: Message, err: StoreError): (r: Response<R>)
    ensures r.status == 409 <==> err.DuplicateKey?
    ensures err.DuplicateKey? ==> r.payload == ErrorBody(conflict)
    ensures err.Failure? ==> r == Response(500, ErrorBody(StoreFailure(err.message)))
  {
    match err
    case DuplicateKey => Response(409, ErrorBody(conflict))
    case Failure(message) => Response(500, ErrorBody(StoreFailure(message)))
  }

  /** `Model.findById`: the record under the id's canonical key, if any. */
  function Find<R>(store: map<Id, R>, id: string): (r: Option<R>)
    ensures r.Some? <==> Key(id) in store
    ensures r.Some? ==> r.value == store[Key(id)]
  {
    if Key(id) in store then Some(store[Key(id)]) else None
  }

  /**
   Two spellings of an id that differ only in letter case find the same record, and a record
   stored under a canonical key is found by that key.
   */
  lemma FindIgnoresCase<R>(store: map<Id, R>, a: string, b: string)
    requires |a| == |b| && forall i :: 0 <= i < |a| ==> ToLower(a[i]) == ToLower(b[i])
    ensures Find(store, a) == Find(store, b)
    ensures IsKey(a) && a in store ==> Find(store, a) == Some(store[a])
  {
    assert Key(a) == Key(b);
    if IsKey(a) {
      KeyOfKey(a);
    }
  }
}
