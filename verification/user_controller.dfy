/**
 The user handlers as functions from a request and the user collection to a response and the
 collection afterwards. `newId` is the id the store assigns to a created record; `fault` is an
 error the store throws at the handler's persistence call. A duplicate stored address is the
 store's unique-index violation, which `handleError` turns into a 409.
 */
module UserController {
  import opened Common
  import opened Chars
  import opened Patterns
  import opened Json
  import opened Rules
  import opened Ids
  import opened Messages
  import opened Http
  import opened Handlers
  import opened UserSchema

  /** `postUser`: validate against the creation rules, then create under a fresh id. */
  function PostUser(users: map<Id, User>, body: Body, newId: Id, fault: Option<string>)
    : (o: Outcome<User>)
    requires IsKey(newId) && newId !in users
    ensures ValidCreation(body) <==> Validate(UserPost, body) == None
    ensures o.response.status == 201 <==>
      ValidCreation(body) && fault.None? && !EmailTaken(users, NewUser(body).email, None)
    ensures o.response.status == 201 ==>
      && o.response.payload == One(newId, NewUser(body))
      && o.store == users[newId := NewUser(body)]
    ensures o.response.status != 201 ==> o.store == users
    ensures !ValidCreation(body) ==> o.response == BadRequest(Validate(UserPost, body).value)
    ensures ValidCreation(body) && fault.Some? ==> o.response == Fault(fault.value)
    ensures ValidCreation(body) && fault.None? && EmailTaken(users, NewUser(body).email, None) ==>
      o.response == Response(409, ErrorBody(EmailAlreadyRegistered))
  {
    PostAcceptsIff(body);
    match ValidateRequest(UserPost, body)
    case Some(bad) => Outcome(bad, users)
    case None =>
      var u := NewUser(body);
      if fault.Some? then Outcome(HandleError(EmailAlreadyRegistered, Failure(fault.value)), users)
      else if EmailTaken(users, u.email, None) then
        Outcome(HandleError(EmailAlreadyRegistered, DuplicateKey), users)
      else Outcome(Response(201, One(newId, u)), users[newId := u])
  }

  /** The record an update leaves under `id`, when there is one. */
  function Updated(users: map<Id, User>, id: string, body: Body): User
    requires Key(id) in users && ValidUpdate(body)
  {
    UpdateUser(users[Key(id)], body)
  }

  /**
   `putUser`: the id's format, then the body against the update rules (every field optional),
   then the update, which answers 404 for an absent record before any address clash.
   */
  function PutUser(users: map<Id, User>, id: string, body: Body, fault: Option<string>)
    : (o: Outcome<User>)
    ensures ValidUpdate(body) <==> Validate(UserPut, body) == None
    ensures o.response.status == 200 <==>
      && IsObjectId(id) && ValidUpdate(body) && fault.None? && Key(id) in users
      && !EmailTaken(users, Updated(users, id, body).email, Some(Key(id)))
    ensures o.response.status == 200 ==>
      && o.response.payload == One(Key(id), Updated(users, id, body))
      && o.store == users[Key(id) := Updated(users, id, body)]
    ensures o.response.status != 200 ==> o.store == users
    ensures !IsObjectId(id) ==> o.response == BadRequest(InvalidId(UserEntity, id))
    ensures IsObjectId(id) && !ValidUpdate(body) ==>
      o.response == BadRequest(Validate(UserPut, body).value)
    ensures IsObjectId(id) && ValidUpdate(body) && fault.Some? ==> o.response == Fault(fault.value)
    ensures IsObjectId(id) && ValidUpdate(body) && fault.None? && Key(id) !in users ==>
      o.response == Response(404, ErrorBody(NotFound(UserEntity, id)))
    ensures IsObjectId(id) && ValidUpdate(body) && fault.None? && Key(id) in users
            && EmailTaken(users, Updated(users, id, body).email, Some(Key(id))) ==>
      o.response == Response(409, ErrorBody(EmailAlreadyRegistered))
  {
    PutAcceptsIff(body);
    match CheckIdFormat(UserEntity, id)
    case Some(bad) => Outcome(bad, users)
    case None =>
      match ValidateRequest(UserPut, body)
      case Some(bad) => Outcome(bad, users)
      case None =>
        if fault.Some? then Outcome(HandleError(EmailAlreadyRegistered, Failure(fault.value)), users)
        else match CheckFound(UserEntity, id, Find(users, id))
          case Some(missing) => Outcome(missing, users)
          case None =>
            var u := Updated(users, id, body);
            if EmailTaken(users, u.email, Some(Key(id))) then
              Outcome(HandleError(EmailAlreadyRegistered, DuplicateKey), users)
            else Outcome(Response(200, One(Key(id), u)), users[Key(id) := u])
  }

  /** `deleteUser`. */
  function DeleteUser(users: map<Id, User>, id: string, fault: Option<string>): (o: Outcome<User>)
    ensures o.response.status == 200 <==> IsObjectId(id) && fault.None? && Key(id) in users
    ensures o.response.status == 200 ==>
      o.response.payload == One(Key(id), users[Key(id)]) && o.store == users - {Key(id)}
    ensures o.response.status != 200 ==> o.store == users
  {
    DeleteById(UserEntity, users, id, fault)
  }

  /** `getUsers`: one user when the route carries an id, otherwise all of them. */
  function GetUsers(users: map<Id, User>, id: Option<string>, fault: Option<string>): (o: Outcome<User>)
    ensures o.store == users
    ensures id.None? || id == Some("") ==> o == ListAll(users, fault)
    ensures id.Some? && id.value != "" ==> o == GetById(UserEntity, users, id.value, fault)
  {
    match id
    case Some(i) => if i != "" then GetById(UserEntity, users, i, fault) else ListAll(users, fault)
    case None => ListAll(users, fault)
  }

  // ---- The collection invariant ----

  /** Creating keeps every user in stored form and all addresses distinct. */
  lemma PostKeepsUsersOk(users: map<Id, User>, body: Body, newId: Id, fault: Option<string>)
    requires IsKey(newId) && newId !in users
    requires UsersOk(users)
    ensures UsersOk(PostUser(users, body, newId, fault).store)
  {
    var o := PostUser(users, body, newId, fault);
    if o.response.status == 201 {
      RecordsOk(body, NewUser(body));
      StoreKeepsUsersOk(users, newId, NewUser(body));
    }
  }

  /** Updating keeps every user in stored form and all addresses distinct. */
  lemma PutKeepsUsersOk(users: map<Id, User>, id: string, body: Body, fault: Option<string>)
    requires UsersOk(users)
    ensures UsersOk(PutUser(users, id, body, fault).store)
  {
    var o := PutUser(users, id, body, fault);
    if o.response.status == 200 {
      KeyOfObjectId(id);
      RecordsOk(body, users[Key(id)]);
      StoreKeepsUsersOk(users, Key(id), Updated(users, id, body));
    }
  }

  /** Deleting keeps the collection well formed. */
  lemma DeleteKeepsUsersOk(users: map<Id, User>, id: string, fault: Option<string>)
    requires UsersOk(users)
    ensures UsersOk(DeleteUser(users, id, fault).store)
  {
    var o := DeleteUser(users, id, fault);
    if o.response.status == 200 {
      RemoveKeepsUsersOk(users, Key(id));
    }
  }

  // ---- Round trips and conflicts ----

  /** A created user can be read back by its id, exactly as created. */
  lemma PostThenGet(users: map<Id, User>, body: Body, newId: Id)
    requires IsKey(newId) && newId !in users
    requires PostUser(users, body, newId, None).response.status == 201
    ensures GetUsers(PostUser(users, body, newId, None).store, Some(newId), None).response
         == Response(200, One(newId, NewUser(body)))
  {
    KeyOfKey(newId);
  }

  /** An address that differs from a stored one only in letter case is already registered. */
  lemma PostConflictsUpToCase(users: map<Id, User>, body: Body, newId: Id, k: Id)
    requires IsKey(newId) && newId !in users
    requires UsersOk(users) && ValidCreation(body)
    requires k in users && LowerAll(users[k].email) == LowerAll(Lookup(body, "email").value.str)
    ensures PostUser(users, body, newId, None).response == Response(409, ErrorBody(EmailAlreadyRegistered))
  {
    EmailTakenIff(users, Lookup(body, "email").value.str, None);
  }

  /** An update that gives no address keeps the stored one, so it cannot clash. */
  lemma PutWithoutEmail(users: map<Id, User>, id: string, body: Body)
    requires UsersOk(users) && IsObjectId(id) && Key(id) in users
    requires ValidUpdate(body) && Lookup(body, "email").None?
    ensures PutUser(users, id, body, None).response.status == 200
  {
    var k := Key(id);
    var u := Updated(users, id, body);
    assert u.email == users[k].email;
    assert !EmailTaken(users, u.email, Some(k)) by {
      forall j | j in users && Some(j) != Some(k) ensures users[j].email != u.email {
        assert j != k;
      }
    }
  }

  /** `{}` is a valid update that leaves the user as it was. */
  lemma PutEmptyBody(users: map<Id, User>, id: string)
    requires UsersOk(users) && IsObjectId(id) && Key(id) in users
    ensures PutUser(users, id, [], None) == Outcome(Response(200, One(Key(id), users[Key(id)])), users)
  {
    PutAcceptsIff([]);
    PutWithoutEmail(users, id, []);
    var u := Updated(users, id, []);
    assert u == users[Key(id)];
    assert users[Key(id) := u] == users;
  }

  /** Listing never answers 404: an empty collection is listed as empty. */
  lemma ListNever404(users: map<Id, User>)
    ensures GetUsers(users, None, None).response == Response(200, Many(users))
  {
  }
}
