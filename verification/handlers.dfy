/**
 The request pipelines the three controllers share word for word apart from the entity: read one
 record by id, delete one record by id, and list every record. Each checks the id's format, then
 asks the store, then answers 404 or 200. A store fault (`fault`) stands for an error the store
 throws at that call; every handler's `catch` turns it into a 500 with the error's text.
 */
module Handlers {
  import opened Common
  import opened Patterns
  import opened Ids
  import opened Messages
  import opened Http

  function Fault<R>(message: string): Response<R> {
    Response(500, ErrorBody(StoreFailure(message)))
  }

  /** `getOrder`, and the id branch of `getProducts` and `getUsers`. */
  function GetById<R>(entity: Entity, store: map<Id, R>, id: string, fault: Option<string>): (o: Outcome<R>)
    ensures o.store == store
    ensures o.response.status == 200 <==> IsObjectId(id) && fault.None? && Key(id) in store
    ensures o.response.status == 200 ==> o.response.payload == One(Key(id), store[Key(id)])
    ensures !IsObjectId(id) ==> o.response == BadRequest(InvalidId(entity, id))
    ensures IsObjectId(id) && fault.Some? ==> o.response == Fault(fault.value)
    ensures IsObjectId(id) && fault.None? && Key(id) !in store ==>
      o.response == Response(404, ErrorBody(NotFound(entity, id)))
  {
    match CheckIdFormat(entity, id)
    case Some(bad) => Outcome(bad, store)
    case None =>
      if fault.Some? then Outcome(Fault(fault.value), store)
      else
        var found := Find(store, id);
        match CheckFound(entity, id, found)
        case Some(missing) => Outcome(missing, store)
        case None => Outcome(Response(200, One(Key(id), found.value)), store)
  }

  /** `deleteOrder`, `deleteProduct` and `deleteUser`: the removed record is returned. */
  function DeleteById<R>(entity: Entity, store: map<Id, R>, id: string, fault: Option<string>): (o: Outcome<R>)
    ensures o.response.status == 200 <==> IsObjectId(id) && fault.None? && Key(id) in store
    ensures o.response.status == 200 ==>
      && o.response.payload == One(Key(id), store[Key(id)])
      && o.store == store - {Key(id)}
    ensures o.response.status != 200 ==> o.store == store
    ensures !IsObjectId(id) ==> o.response == BadRequest(InvalidId(entity, id))
    ensures IsObjectId(id) && fault.Some? ==> o.response == Fault(fault.value)
    ensures IsObjectId(id) && fault.None? && Key(id) !in store ==>
      o.response == Response(404, ErrorBody(NotFound(entity, id)))
  {
    var read := GetById(entity, store, id, fault);
    if read.response.status == 200 then Outcome(read.response, store - {Key(id)})
    else read
  }

  /** The list branch of `getProducts` and `getUsers`: every record, even when there is none. */
  function ListAll<R>(store: map<Id, R>, fault: Option<string>): (o: Outcome<R>)
    ensures o.store == store
    ensures fault.None? <==> o.response.status == 200
    ensures fault.None? ==> o.response.payload == Many(store)
    ensures fault.Some? ==> o.response == Fault(fault.value)
  {
    if fault.Some? then Outcome(Fault(fault.value), store)
    else Outcome(Response(200, Many(store)), store)
  }

  // ---- How the pipelines compose ----

  /** A record that has been deleted can no longer be read: the read answers 404. */
  lemma DeleteThenGet<R>(entity: Entity, store: map<Id, R>, id: string)
    requires DeleteById(entity, store, id, None).response.status == 200
    ensures GetById(entity, DeleteById(entity, store, id, None).store, id, None).response
         == Response(404, ErrorBody(NotFound(entity, id)))
  {
  }

  /** Deleting the same id twice: the second request answers 404 and changes nothing. */
  lemma DeleteTwice<R>(entity: Entity, store: map<Id, R>, id: string)
    requires DeleteById(entity, store, id, None).response.status == 200
    ensures var after := DeleteById(entity, store, id, None).store;
      DeleteById(entity, after, id, None) == Outcome(Response(404, ErrorBody(NotFound(entity, id))), after)
  {
  }

  /** Two spellings of an id that differ only in hex-digit case read the same record. */
  lemma GetIgnoresHexCase<R>(entity: Entity, store: map<Id, R>, a: string, b: string)
    requires IsObjectId(a) && IsObjectId(b) && Key(a) == Key(b) && Key(a) in store
    ensures GetById(entity, store, a, None) == GetById(entity, store, b, None)
  {
  }

  /** Deleting removes exactly one record: the others are untouched. */
  lemma DeleteKeepsOthers<R>(entity: Entity, store: map<Id, R>, id: string, fault: Option<string>, k: Id)
    requires k in store && k != Key(id)
    ensures var after := DeleteById(entity, store, id, fault).store;
      k in after && after[k] == store[k]
  {
  }
}
