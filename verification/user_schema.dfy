/**
 The user entity and its two request rule tables. A user has a name and a last name of 2 to 25
 characters and an e-mail address that is stored lower-cased and is unique among users.
 */
module UserSchema {
  import opened Common
  import opened Chars
  import opened Patterns
  import opened Json
  import opened Rules
  import opened Ids
  import opened Messages

  /** A stored user. Names are stored as given; the address is stored lower-cased. */
  datatype User = User(name: string, lastName: string, email: string)

  const NameRule := StringRule(UserName, false, Some(NameLengthPattern))
  const LastNameRule := StringRule(UserLastName, false, Some(NameLengthPattern))
  const EmailRule := StringRule(UserEmail, false, Some(EmailPattern))

  const NameField := Field("name", true, StringKind(NameRule))
  const LastNameField := Field("lastName", true, StringKind(LastNameRule))
  const EmailField := Field("email", true, StringKind(EmailRule))

  /** `userJoiSchemaPOST`: `name`, `lastName` and `email` all required, nothing else allowed. */
  const UserPost := Schema([NameField, LastNameField, EmailField])

  /** `userJoiSchemaPUT`: the same per-field rules with nothing required. */
  const UserPut := Schema([NameField.(required := false), LastNameField.(required := false),
    EmailField.(required := false)])

  /** The update table is the creation table with every field made optional. */
  lemma PutIsRelaxedPost()
    ensures UserPut == Relaxed(UserPost)
  {
    var r := Relaxed(UserPost);
    assert r.fields == UserPut.fields by {
      assert r.fields[0] == UserPut.fields[0];
      assert r.fields[1] == UserPut.fields[1];
      assert r.fields[2] == UserPut.fields[2];
    }
  }

  /** The three fields of either table, in declaration order. */
  lemma TableFields(schema: Schema)
    requires schema == UserPost || schema == UserPut
    ensures |schema.fields| == 3
    ensures schema.fields[0] == NameField.(required := schema == UserPost)
    ensures schema.fields[1] == LastNameField.(required := schema == UserPost)
    ensures schema.fields[2] == EmailField.(required := schema == UserPost)
  {
    if schema == UserPut {
      assert UserPut != UserPost by { assert UserPut.fields[0].required != UserPost.fields[0].required; }
    }
  }

  lemma UserKeys()
    ensures DeclaredKeys(UserPost) == {"name", "lastName", "email"}
    ensures DeclaredKeys(UserPut) == {"name", "lastName", "email"}
  {
    assert UserPost.fields[0].key == UserPut.fields[0].key == "name";
    assert UserPost.fields[1].key == UserPut.fields[1].key == "lastName";
    assert UserPost.fields[2].key == UserPut.fields[2].key == "email";
  }

  // ---- What a valid body is, without messages ----

  predicate NameOk(v: Option<Json>, required: bool) {
    if v.Some? then v.value.JString? && IsNameLength(v.value.str) else !required
  }

  predicate EmailOk(v: Option<Json>, required: bool) {
    if v.Some? then v.value.JString? && IsEmail(v.value.str) else !required
  }

  predicate OnlyUserKeys(body: Body) {
    forall j :: 0 <= j < |body| ==> body[j].key in {"name", "lastName", "email"}
  }

  /** A creation body: two names of 2 to 25 characters, a valid address, no other key. */
  predicate ValidCreation(body: Body) {
    && NameOk(Lookup(body, "name"), true)
    && NameOk(Lookup(body, "lastName"), true)
    && EmailOk(Lookup(body, "email"), true)
    && OnlyUserKeys(body)
  }

  /** An update body: the same, with every field optional. */
  predicate ValidUpdate(body: Body) {
    && NameOk(Lookup(body, "name"), false)
    && NameOk(Lookup(body, "lastName"), false)
    && EmailOk(Lookup(body, "email"), false)
    && OnlyUserKeys(body)
  }

  lemma EmptyIsNoEmail()
    ensures !IsEmail("")
  {
    assert Split("", '@') == [[]];
  }

  lemma FieldMeaning(schema: Schema, body: Body)
    requires schema == UserPost || schema == UserPut
    ensures |schema.fields| == 3
    ensures FieldOk(schema.fields[0], Lookup(body, schema.fields[0].key))
            <==> NameOk(Lookup(body, "name"), schema == UserPost)
    ensures FieldOk(schema.fields[1], Lookup(body, schema.fields[1].key))
            <==> NameOk(Lookup(body, "lastName"), schema == UserPost)
    ensures FieldOk(schema.fields[2], Lookup(body, schema.fields[2].key))
            <==> EmailOk(Lookup(body, "email"), schema == UserPost)
  {
    TableFields(schema);
    EmptyIsNoEmail();
  }

  lemma FieldsMeaning(schema: Schema, body: Body)
    requires schema == UserPost || schema == UserPut
    ensures FieldsOk(schema, body) <==>
      && NameOk(Lookup(body, "name"), schema == UserPost)
      && NameOk(Lookup(body, "lastName"), schema == UserPost)
      && EmailOk(Lookup(body, "email"), schema == UserPost)
  {
    FieldMeaning(schema, body);
    var fs := schema.fields;
    assert FieldsOk(schema, body) <==>
      && FieldOk(fs[0], Lookup(body, fs[0].key))
      && FieldOk(fs[1], Lookup(body, fs[1].key))
      && FieldOk(fs[2], Lookup(body, fs[2].key));
  }

  /** Every key of the body is one the tables declare. */
  lemma KeysMeaning(schema: Schema, body: Body)
    requires schema == UserPost || schema == UserPut
    ensures (forall j :: 0 <= j < |body| ==> body[j].key in DeclaredKeys(schema)) <==> OnlyUserKeys(body)
  {
    UserKeys();
  }

  /** Either table accepts a body exactly when the message-free predicates hold. */
  lemma ConformsMeaning(schema: Schema, body: Body)
    requires schema == UserPost || schema == UserPut
    ensures Conforms(schema, body) <==>
      && NameOk(Lookup(body, "name"), schema == UserPost)
      && NameOk(Lookup(body, "lastName"), schema == UserPost)
      && EmailOk(Lookup(body, "email"), schema == UserPost)
      && OnlyUserKeys(body)
  {
    KeysMeaning(schema, body);
    FieldsMeaning(schema, body);
  }

  /** The POST rules accept a body exactly when it is a valid creation body. */
  lemma PostAcceptsIff(body: Body)
    ensures Validate(UserPost, body) == None <==> ValidCreation(body)
  {
    ConformsMeaning(UserPost, body);
  }

  /** The PUT rules accept a body exactly when it is a valid update body; `{}` is one. */
  lemma PutAcceptsIff(body: Body)
    ensures Validate(UserPut, body) == None <==> ValidUpdate(body)
    ensures Validate(UserPut, []) == None
  {
    ConformsMeaning(UserPut, body);
    ConformsMeaning(UserPut, []);
  }

  // ---- The messages ----

  /** A missing required field is reported by name, in the order name, last name, e-mail. */
  lemma PostMissingField(body: Body)
    ensures Lookup(body, "name").None? ==>
      Validate(UserPost, body) == Some(Required("name"))
    ensures NameOk(Lookup(body, "name"), true) && Lookup(body, "lastName").None? ==>
      Validate(UserPost, body) == Some(Required("lastName"))
    ensures NameOk(Lookup(body, "name"), true) && NameOk(Lookup(body, "lastName"), true)
            && Lookup(body, "email").None? ==>
      Validate(UserPost, body) == Some(Required("email"))
  {
    FieldMeaning(UserPost, body);
    if Lookup(body, "name").None? {
      ValidateReportsFirstBadField(UserPost, body, 0);
    } else if NameOk(Lookup(body, "name"), true) && Lookup(body, "lastName").None? {
      ValidateReportsFirstBadField(UserPost, body, 1);
    } else if NameOk(Lookup(body, "name"), true) && NameOk(Lookup(body, "lastName"), true)
              && Lookup(body, "email").None? {
      ValidateReportsFirstBadField(UserPost, body, 2);
    }
  }

  /** A present `name` that is not a string, is empty, or has the wrong length. */
  lemma BadName(schema: Schema, body: Body, v: Json)
    requires schema == UserPost || schema == UserPut
    requires Lookup(body, "name") == Some(v)
    ensures !v.JString? ==> Validate(schema, body) == Some(NotString(UserName))
    ensures v == JString("") ==> Validate(schema, body) == Some(EmptyString(UserName))
    ensures v.JString? && v.str != "" && !IsNameLength(v.str) ==>
      Validate(schema, body) == Some(Mismatch(UserName, v.str))
  {
    FieldMeaning(schema, body);
    TableFields(schema);
    if !(v.JString? && IsNameLength(v.str)) {
      ValidateReportsFirstBadField(schema, body, 0);
    }
  }

  /** A present `lastName` that is not a string, is empty, or has the wrong length. */
  lemma BadLastName(schema: Schema, body: Body, v: Json)
    requires schema == UserPost || schema == UserPut
    requires NameOk(Lookup(body, "name"), schema == UserPost)
    requires Lookup(body, "lastName") == Some(v)
    ensures !v.JString? ==> Validate(schema, body) == Some(NotString(UserLastName))
    ensures v == JString("") ==> Validate(schema, body) == Some(EmptyString(UserLastName))
    ensures v.JString? && v.str != "" && !IsNameLength(v.str) ==>
      Validate(schema, body) == Some(Mismatch(UserLastName, v.str))
  {
    FieldMeaning(schema, body);
    TableFields(schema);
    if !(v.JString? && IsNameLength(v.str)) {
      ValidateReportsFirstBadField(schema, body, 1);
    }
  }

  /** A present `email` that is not a string, is empty, or is not an address. */
  lemma BadEmail(schema: Schema, body: Body, v: Json)
    requires schema == UserPost || schema == UserPut
    requires NameOk(Lookup(body, "name"), schema == UserPost)
    requires NameOk(Lookup(body, "lastName"), schema == UserPost)
    requires Lookup(body, "email") == Some(v)
    ensures !v.JString? ==> Validate(schema, body) == Some(NotString(UserEmail))
    ensures v == JString("") ==> Validate(schema, body) == Some(EmptyString(UserEmail))
    ensures v.JString? && v.str != "" && !IsEmail(v.str) ==>
      Validate(schema, body) == Some(Mismatch(UserEmail, v.str))
  {
    FieldMeaning(schema, body);
    TableFields(schema);
    if !(v.JString? && IsEmail(v.str)) {
      ValidateReportsFirstBadField(schema, body, 2);
    }
  }

  /** Once the declared fields are acceptable, the undeclared key `Object.keys` lists first is named. */
  lemma UnknownKey(schema: Schema, body: Body, j: nat)
    requires schema == UserPost || schema == UserPut
    requires NameOk(Lookup(body, "name"), schema == UserPost)
    requires NameOk(Lookup(body, "lastName"), schema == UserPost)
    requires EmailOk(Lookup(body, "email"), schema == UserPost)
    requires j < |body| && body[j].key !in {"name", "lastName", "email"}
    requires forall i :: 0 <= i < |body| && body[i].key !in {"name", "lastName", "email"} ==> ListedNoLater(body, j, i)
    ensures Validate(schema, body) == Some(NotAllowed(body[j].key))
  {
    FieldsMeaning(schema, body);
    UnknownKeyOnceFieldsOk(schema, body, j);
  }

  lemma UnknownKeyOnceFieldsOk(schema: Schema, body: Body, j: nat)
    requires schema == UserPost || schema == UserPut
    requires FieldsOk(schema, body)
    requires j < |body| && body[j].key !in {"name", "lastName", "email"}
    requires forall i :: 0 <= i < |body| && body[i].key !in {"name", "lastName", "email"} ==> ListedNoLater(body, j, i)
    ensures Validate(schema, body) == Some(NotAllowed(body[j].key))
  {
    UserKeys();
    ReportsUnknownKey(schema, body, {"name", "lastName", "email"}, j);
  }

  // ---- The stored record ----

  /** `User.create(body)`: names as given, the address through the `lowercase` setter. */
  function NewUser(body: Body): (u: User)
    requires ValidCreation(body)
    ensures u.name == Lookup(body, "name").value.str
    ensures u.lastName == Lookup(body, "lastName").value.str
    ensures u.email == LowerAll(Lookup(body, "email").value.str)
  {
    User(Lookup(body, "name").value.str, Lookup(body, "lastName").value.str,
      LowerAll(Lookup(body, "email").value.str))
  }

  /** `findByIdAndUpdate(id, body)`: each field the body gives replaces the stored one. */
  function UpdateUser(u: User, body: Body): (r: User)
    requires ValidUpdate(body)
    ensures r.name == if Lookup(body, "name").Some? then Lookup(body, "name").value.str else u.name
    ensures r.lastName == if Lookup(body, "lastName").Some? then Lookup(body, "lastName").value.str else u.lastName
    ensures r.email == if Lookup(body, "email").Some? then LowerAll(Lookup(body, "email").value.str) else u.email
  {
    User(
      match Lookup(body, "name") case Some(v) => v.str case None => u.name,
      match Lookup(body, "lastName") case Some(v) => v.str case None => u.lastName,
      match Lookup(body, "email") case Some(v) => LowerAll(v.str) case None => u.email)
  }

  /** A stored user: valid names, a valid address that is already lower-case. */
  predicate UserOk(u: User) {
    IsNameLength(u.name) && IsNameLength(u.lastName) && IsEmail(u.email) && LowerAll(u.email) == u.email
  }

  /** The unique index on `email`: no two users share an address. */
  predicate EmailsUnique(users: map<Id, User>) {
    forall a, b :: a in users && b in users && a != b ==> users[a].email != users[b].email
  }

  /** Every user is keyed canonically and in stored form. */
  predicate UsersWellFormed(users: map<Id, User>) {
    forall k :: k in users ==> IsKey(k) && UserOk(users[k])
  }

  predicate UsersOk(users: map<Id, User>) {
    UsersWellFormed(users) && EmailsUnique(users)
  }

  /** Whether a user other than `except` already has the address `email`. */
  predicate EmailTaken(users: map<Id, User>, email: string, except: Option<Id>) {
    exists k :: k in users && Some(k) != except && users[k].email == email
  }

  /** Created and updated users are stored lower-cased and keep the stored-user shape. */
  lemma RecordsOk(body: Body, u: User)
    ensures ValidCreation(body) ==> UserOk(NewUser(body))
    ensures ValidUpdate(body) && UserOk(u) ==> UserOk(UpdateUser(u, body))
  {
    var e := Lookup(body, "email");
    if e.Some? && e.value.JString? {
      EmailLower(e.value.str);
      LowerAllIdempotent(e.value.str);
    }
  }

  /** Storing a well-formed user whose address no other user has keeps the collection well formed. */
  lemma StoreKeepsUsersOk(users: map<Id, User>, k: Id, u: User)
    requires UsersOk(users) && IsKey(k) && UserOk(u)
    requires !EmailTaken(users, u.email, Some(k))
    ensures UsersOk(users[k := u])
  {
    StoreKeepsWellFormed(users, k, u);
    StoreKeepsEmailsUnique(users, k, u);
  }

  lemma StoreKeepsWellFormed(users: map<Id, User>, k: Id, u: User)
    requires UsersWellFormed(users) && IsKey(k) && UserOk(u)
    ensures UsersWellFormed(users[k := u])
  {
    var after := users[k := u];
    forall a | a in after ensures IsKey(a) && UserOk(after[a]) {
      if a != k {
        assert after[a] == users[a];
      }
    }
  }

  lemma StoreKeepsEmailsUnique(users: map<Id, User>, k: Id, u: User)
    requires EmailsUnique(users) && !EmailTaken(users, u.email, Some(k))
    ensures EmailsUnique(users[k := u])
  {
    var after := users[k := u];
    forall a, b | a in after && b in after && a != b
      ensures after[a].email != after[b].email
    {
      if a == k {
        assert b in users && Some(b) != Some(k);
      } else if b == k {
        assert a in users && Some(a) != Some(k);
      }
    }
  }

  /** Removing a user keeps the collection well formed. */
  lemma RemoveKeepsUsersOk(users: map<Id, User>, k: Id)
    requires UsersOk(users)
    ensures UsersOk(users - {k})
  {
  }

  /**
   Stored addresses are lower-case, so a new address collides with a stored one exactly when the
   two agree up to ASCII case.
   */
  lemma EmailTakenIff(users: map<Id, User>, email: string, except: Option<Id>)
    requires UsersOk(users)
    ensures EmailTaken(users, LowerAll(email), except) <==>
      exists k :: k in users && Some(k) != except && LowerAll(users[k].email) == LowerAll(email)
  {
    forall k | k in users ensures LowerAll(users[k].email) == users[k].email {
    }
  }
}
