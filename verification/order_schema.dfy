/**
 The order entity and its two request rule tables. An order lists product ids and user ids, each
 list non-empty, and a `YYYY-MM-DD` date that defaults to the creation day.
 */
module OrderSchema {
  import opened Common
  import opened Chars
  import opened Text
  import opened Patterns
  import opened Json
  import opened Rules
  import opened Ids
  import opened Messages

  /** A stored order: canonical product and user keys, and the date text. */
  datatype Order = Order(products: seq<Id>, users: seq<Id>, date: string)

  /** The server's local calendar day, which `defaultDate` reads from the clock. */
  datatype CalendarDay = CalendarDay(year: nat, month: nat, day: nat)

  const ProductIdRule := StringRule(ProductIdItem, false, Some(ObjectIdPattern))
  const UserIdRule := StringRule(UserIdItem, false, Some(ObjectIdPattern))
  const DateRule := StringRule(OrderDate, false, Some(DatePattern))

  const ProductsField := Field("products", true, ArrayKind(ProductIdRule, 1))
  const UsersField := Field("users", true, ArrayKind(UserIdRule, 1))
  const DateField := Field("date", false, StringKind(DateRule))

  /** `orderJoiSchemaPOST`: `products` and `users` required, `date` optional, nothing else. */
  const OrderPost := Schema([ProductsField, UsersField, DateField])

  /** `orderJoiSchemaPUT`: the same per-field rules with nothing required. */
  const OrderPut := Schema([ProductsField.(required := false), UsersField.(required := false),
    DateField])

  /** The update table is the creation table with every field made optional. */
  lemma PutIsRelaxedPost()
    ensures OrderPut == Relaxed(OrderPost)
  {
    var r := Relaxed(OrderPost);
    assert r.fields == OrderPut.fields by {
      assert r.fields[0] == OrderPut.fields[0];
      assert r.fields[1] == OrderPut.fields[1];
      assert r.fields[2] == OrderPut.fields[2];
    }
  }

  lemma OrderKeys()
    ensures DeclaredKeys(OrderPost) == {"products", "users", "date"}
    ensures DeclaredKeys(OrderPut) == {"products", "users", "date"}
  {
    assert OrderPost.fields[0].key == OrderPut.fields[0].key == "products";
    assert OrderPost.fields[1].key == OrderPut.fields[1].key == "users";
    assert OrderPost.fields[2].key == OrderPut.fields[2].key == "date";
  }

  /** The three fields of either table, in declaration order. */
  lemma TableFields(schema: Schema)
    requires schema == OrderPost || schema == OrderPut
    ensures |schema.fields| == 3
    ensures schema.fields[0] == ProductsField.(required := schema == OrderPost)
    ensures schema.fields[1] == UsersField.(required := schema == OrderPost)
    ensures schema.fields[2] == DateField
  {
    if schema == OrderPut {
      assert OrderPut != OrderPost by { assert OrderPut.fields[0].required != OrderPost.fields[0].required; }
    }
  }

  // ---- What a valid body is, without messages ----

  /** A non-empty JSON array of 24-hex-digit strings. */
  predicate IsIdList(v: Json) {
    && v.JArray? && |v.items| >= 1
    && forall i :: 0 <= i < |v.items| ==> v.items[i].JString? && IsObjectId(v.items[i].str)
  }

  predicate IdListOk(v: Option<Json>, required: bool) {
    if v.Some? then IsIdList(v.value) else !required
  }

  predicate DateOk(v: Option<Json>) {
    v.Some? ==> v.value.JString? && IsDate(v.value.str)
  }

  predicate OnlyOrderKeys(body: Body) {
    forall j :: 0 <= j < |body| ==> body[j].key in {"products", "users", "date"}
  }

  /** A creation body: both id lists present and non-empty, an optional valid date, no other key. */
  predicate ValidCreation(body: Body) {
    && IdListOk(Lookup(body, "products"), true)
    && IdListOk(Lookup(body, "users"), true)
    && DateOk(Lookup(body, "date"))
    && OnlyOrderKeys(body)
  }

  /** An update body: the same, with every field optional. */
  predicate ValidUpdate(body: Body) {
    && IdListOk(Lookup(body, "products"), false)
    && IdListOk(Lookup(body, "users"), false)
    && DateOk(Lookup(body, "date"))
    && OnlyOrderKeys(body)
  }

  lemma IdItemOk(r: StringRule, v: Json)
    requires r == ProductIdRule || r == UserIdRule
    ensures StringOk(r, v) <==> v.JString? && IsObjectId(v.str)
  {
  }

  lemma ArrayOkIsIdList(r: StringRule, v: Json)
    requires r == ProductIdRule || r == UserIdRule
    ensures KindOk(ArrayKind(r, 1), v) <==> IsIdList(v)
  {
    if v.JArray? {
      forall i | 0 <= i < |v.items| {
        IdItemOk(r, v.items[i]);
      }
    }
  }

  /** Each field of either table conforms exactly when the message-free predicate holds. */
  lemma FieldMeaning(schema: Schema, body: Body)
    requires schema == OrderPost || schema == OrderPut
    ensures |schema.fields| == 3
    ensures FieldOk(schema.fields[0], Lookup(body, schema.fields[0].key))
            <==> IdListOk(Lookup(body, "products"), schema == OrderPost)
    ensures FieldOk(schema.fields[1], Lookup(body, schema.fields[1].key))
            <==> IdListOk(Lookup(body, "users"), schema == OrderPost)
    ensures FieldOk(schema.fields[2], Lookup(body, schema.fields[2].key))
            <==> DateOk(Lookup(body, "date"))
  {
    TableFields(schema);
    var p, u := Lookup(body, "products"), Lookup(body, "users");
    if p.Some? {
      ArrayOkIsIdList(ProductIdRule, p.value);
    }
    if u.Some? {
      ArrayOkIsIdList(UserIdRule, u.value);
    }
  }

  lemma FieldsMeaning(schema: Schema, body: Body)
    requires schema == OrderPost || schema == OrderPut
    ensures FieldsOk(schema, body) <==>
      && IdListOk(Lookup(body, "products"), schema == OrderPost)
      && IdListOk(Lookup(body, "users"), schema == OrderPost)
      && DateOk(Lookup(body, "date"))
  {
    FieldMeaning(schema, body);
    var fs := schema.fields;
    assert FieldsOk(schema, body) <==>
      && FieldOk(fs[0], Lookup(body, fs[0].key))
      && FieldOk(fs[1], Lookup(body, fs[1].key))
      && FieldOk(fs[2], Lookup(body, fs[2].key));
  }

  /** Every key of the body is one the tables declare. */
  lemma KeysMeaning(schema: Schema, body: Body)
    requires schema == OrderPost || schema == OrderPut
    ensures (forall j :: 0 <= j < |body| ==> body[j].key in DeclaredKeys(schema)) <==> OnlyOrderKeys(body)
  {
    OrderKeys();
  }

  /** Either table accepts a body exactly when the message-free predicates hold. */
  lemma ConformsMeaning(schema: Schema, body: Body)
    requires schema == OrderPost || schema == OrderPut
    ensures Conforms(schema, body) <==>
      && IdListOk(Lookup(body, "products"), schema == OrderPost)
      && IdListOk(Lookup(body, "users"), schema == OrderPost)
      && DateOk(Lookup(body, "date"))
      && OnlyOrderKeys(body)
  {
    KeysMeaning(schema, body);
    FieldsMeaning(schema, body);
  }

  /** The POST rules accept a body exactly when it is a valid creation body. */
  lemma PostAcceptsIff(body: Body)
    ensures Validate(OrderPost, body) == None <==> ValidCreation(body)
  {
    ConformsMeaning(OrderPost, body);
  }

  /** The PUT rules accept a body exactly when it is a valid update body; `{}` is one. */
  lemma PutAcceptsIff(body: Body)
    ensures Validate(OrderPut, body) == None <==> ValidUpdate(body)
    ensures Validate(OrderPut, []) == None
  {
    ConformsMeaning(OrderPut, body);
    ConformsMeaning(OrderPut, []);
  }

  // ---- The messages ----

  /** A missing required list is reported by name: `products` before `users`. */
  lemma PostMissingList(body: Body)
    ensures Lookup(body, "products").None? ==>
      Validate(OrderPost, body) == Some(Required("products"))
    ensures IdListOk(Lookup(body, "products"), true) && Lookup(body, "users").None? ==>
      Validate(OrderPost, body) == Some(Required("users"))
  {
    FieldMeaning(OrderPost, body);
    if Lookup(body, "products").None? {
      ValidateReportsFirstBadField(OrderPost, body, 0);
    } else if IdListOk(Lookup(body, "products"), true) && Lookup(body, "users").None? {
      ValidateReportsFirstBadField(OrderPost, body, 1);
    }
  }

  /** An empty list is reported as such, by either rule table. */
  lemma EmptyList(schema: Schema, body: Body)
    requires schema == OrderPost || schema == OrderPut
    ensures Lookup(body, "products") == Some(JArray([])) ==>
      Validate(schema, body) == Some(TooShort("products"))
    ensures IdListOk(Lookup(body, "products"), schema == OrderPost)
            && Lookup(body, "users") == Some(JArray([])) ==>
      Validate(schema, body) == Some(TooShort("users"))
  {
    FieldMeaning(schema, body);
    TableFields(schema);
    if Lookup(body, "products") == Some(JArray([])) {
      ValidateReportsFirstBadField(schema, body, 0);
    } else if IdListOk(Lookup(body, "products"), schema == OrderPost)
              && Lookup(body, "users") == Some(JArray([])) {
      ValidateReportsFirstBadField(schema, body, 1);
    }
  }

  lemma IdItemError(r: StringRule, v: Json)
    requires r == ProductIdRule || r == UserIdRule
    ensures !v.JString? ==> StringError(r, v) == Some(NotString(r.subject))
    ensures v == JString("") ==> StringError(r, v) == Some(EmptyString(r.subject))
    ensures v.JString? && v.str != "" && !IsObjectId(v.str) ==>
      StringError(r, v) == Some(Mismatch(r.subject, v.str))
  {
  }

  /**
   The first bad element of `products` is reported: an empty string as such, any other string
   that is not 24 hex digits quoted verbatim.
   */
  lemma BadProductId(schema: Schema, body: Body, items: seq<Json>, i: nat)
    requires schema == OrderPost || schema == OrderPut
    requires Lookup(body, "products") == Some(JArray(items))
    requires i < |items| && !(items[i].JString? && IsObjectId(items[i].str))
    requires forall j :: 0 <= j < i ==> items[j].JString? && IsObjectId(items[j].str)
    ensures !items[i].JString? ==> Validate(schema, body) == Some(NotString(ProductIdItem))
    ensures items[i] == JString("") ==>
      Validate(schema, body) == Some(EmptyString(ProductIdItem))
    ensures items[i].JString? && items[i].str != "" ==>
      Validate(schema, body) == Some(Mismatch(ProductIdItem, items[i].str))
  {
    TableFields(schema);
    forall j | 0 <= j <= i { IdItemOk(ProductIdRule, items[j]); }
    ArrayReportsFirstBadItem("products", ProductIdRule, 1, items, i);
    IdItemError(ProductIdRule, items[i]);
    assert KindError("products", schema.fields[0].kind, JArray(items)) == StringError(ProductIdRule, items[i]);
    ValidateReportsFirstBadField(schema, body, 0);
  }

  /** The same for the first bad element of `users`, once `products` is acceptable. */
  lemma BadUserId(schema: Schema, body: Body, items: seq<Json>, i: nat)
    requires schema == OrderPost || schema == OrderPut
    requires IdListOk(Lookup(body, "products"), schema == OrderPost)
    requires Lookup(body, "users") == Some(JArray(items))
    requires i < |items| && !(items[i].JString? && IsObjectId(items[i].str))
    requires forall j :: 0 <= j < i ==> items[j].JString? && IsObjectId(items[j].str)
    ensures !items[i].JString? ==> Validate(schema, body) == Some(NotString(UserIdItem))
    ensures items[i] == JString("") ==>
      Validate(schema, body) == Some(EmptyString(UserIdItem))
    ensures items[i].JString? && items[i].str != "" ==>
      Validate(schema, body) == Some(Mismatch(UserIdItem, items[i].str))
  {
    FieldMeaning(schema, body);
    TableFields(schema);
    forall j | 0 <= j <= i { IdItemOk(UserIdRule, items[j]); }
    ArrayReportsFirstBadItem("users", UserIdRule, 1, items, i);
    IdItemError(UserIdRule, items[i]);
    assert KindError("users", schema.fields[1].kind, JArray(items)) == StringError(UserIdRule, items[i]);
    ValidateReportsFirstBadField(schema, body, 1);
  }

  /** A present date is checked once both lists are acceptable: empty, then pattern. */
  lemma BadDate(schema: Schema, body: Body, s: string)
    requires schema == OrderPost || schema == OrderPut
    requires IdListOk(Lookup(body, "products"), schema == OrderPost)
    requires IdListOk(Lookup(body, "users"), schema == OrderPost)
    requires Lookup(body, "date") == Some(JString(s)) && !IsDate(s)
    ensures s == "" ==> Validate(schema, body) == Some(EmptyString(OrderDate))
    ensures s != "" ==> Validate(schema, body) == Some(Mismatch(OrderDate, s))
  {
    FieldMeaning(schema, body);
    TableFields(schema);
    ValidateReportsFirstBadField(schema, body, 2);
  }

  /** Once the declared fields are acceptable, the undeclared key `Object.keys` lists first is named. */
  lemma UnknownKey(schema: Schema, body: Body, j: nat)
    requires schema == OrderPost || schema == OrderPut
    requires IdListOk(Lookup(body, "products"), schema == OrderPost)
    requires IdListOk(Lookup(body, "users"), schema == OrderPost)
    requires DateOk(Lookup(body, "date"))
    requires j < |body| && body[j].key !in {"products", "users", "date"}
    requires forall i :: 0 <= i < |body| && body[i].key !in {"products", "users", "date"} ==> ListedNoLater(body, j, i)
    ensures Validate(schema, body) == Some(NotAllowed(body[j].key))
  {
    assert DeclaredKeys(schema) == {"products", "users", "date"} by { OrderKeys(); }
    assert FieldsOk(schema, body) by { FieldsMeaning(schema, body); }
    ReportsUnknownKey(schema, body, {"products", "users", "date"}, j);
  }

  /**
   An array-index key is named before a key written earlier: with valid lists, the body
   `{"products": [id], "users": [id], "x": 1, "0": 1}` is refused for "0", not for "x".
   */
  lemma IndexKeyNamedFirst(id: string)
    requires IsObjectId(id)
    ensures var body := [Member("products", JArray([JString(id)])), Member("users", JArray([JString(id)])),
                         Member("x", JNumber(1)), Member("0", JNumber(1))];
      Validate(OrderPost, body) == Some(NotAllowed("0"))
  {
    var body := [Member("products", JArray([JString(id)])), Member("users", JArray([JString(id)])),
                 Member("x", JNumber(1)), Member("0", JNumber(1))];
    assert Lookup(body, "products") == Some(JArray([JString(id)]));
    assert IndexOf(body[1..], "users") == Some(0);
    assert Lookup(body, "users") == Some(JArray([JString(id)]));
    assert IndexOf(body[3..], "date") == None by { assert body[3..][1..] == []; }
    assert Lookup(body, "date") == None;
    assert IsArrayIndex("0") && !IsArrayIndex("x");
    UnknownKey(OrderPost, body, 3);
  }

  // ---- The stored record ----

  /** The canonical keys of a JSON list of id strings. */
  function KeysOf(v: Json): (ks: seq<Id>)
    requires IsIdList(v)
    ensures |ks| == |v.items| > 0
    ensures forall i :: 0 <= i < |ks| ==> ks[i] == Key(v.items[i].str) && IsKey(ks[i])
  {
    var ks := seq(|v.items|, i requires 0 <= i < |v.items| => Key(v.items[i].str));
    assert forall i :: 0 <= i < |ks| ==> IsKey(ks[i]) by {
      forall i | 0 <= i < |ks| { KeyOfObjectId(v.items[i].str); }
    }
    ks
  }

  /** The date stored when the body gives none: `defaultDate()` on the given day. */
  function DefaultDateOn(today: CalendarDay): string {
    DefaultDate(today.year, today.month, today.day)
  }

  /** `Order.create(body)`: both lists as canonical keys, the given date or today's default. */
  function NewOrder(body: Body, today: CalendarDay): (o: Order)
    requires ValidCreation(body)
    ensures |o.products| == |Lookup(body, "products").value.items|
    ensures forall i :: 0 <= i < |o.products| ==>
      o.products[i] == Key(Lookup(body, "products").value.items[i].str)
    ensures |o.users| == |Lookup(body, "users").value.items|
    ensures forall i :: 0 <= i < |o.users| ==>
      o.users[i] == Key(Lookup(body, "users").value.items[i].str)
    ensures o.date == if Lookup(body, "date").Some? then Lookup(body, "date").value.str
                      else DefaultDateOn(today)
  {
    Order(KeysOf(Lookup(body, "products").value), KeysOf(Lookup(body, "users").value),
      match Lookup(body, "date")
      case Some(d) => d.str
      case None => DefaultDateOn(today))
  }

  /** `findByIdAndUpdate(id, body)`: each field the body gives replaces the stored one. */
  function UpdateOrder(o: Order, body: Body): (u: Order)
    requires ValidUpdate(body)
    ensures Lookup(body, "products").None? ==> u.products == o.products
    ensures Lookup(body, "products").Some? ==> u.products == KeysOf(Lookup(body, "products").value)
    ensures Lookup(body, "users").None? ==> u.users == o.users
    ensures Lookup(body, "users").Some? ==> u.users == KeysOf(Lookup(body, "users").value)
    ensures u.date == if Lookup(body, "date").Some? then Lookup(body, "date").value.str else o.date
  {
    Order(
      match Lookup(body, "products") case Some(v) => KeysOf(v) case None => o.products,
      match Lookup(body, "users") case Some(v) => KeysOf(v) case None => o.users,
      match Lookup(body, "date") case Some(d) => d.str case None => o.date)
  }

  /** A stored order: non-empty lists of canonical keys. */
  predicate OrderOk(o: Order) {
    && |o.products| > 0 && (forall i :: 0 <= i < |o.products| ==> IsKey(o.products[i]))
    && |o.users| > 0 && (forall i :: 0 <= i < |o.users| ==> IsKey(o.users[i]))
  }

  predicate OrdersOk(orders: map<Id, Order>) {
    forall k :: k in orders ==> IsKey(k) && OrderOk(orders[k])
  }

  /** A created order and an updated valid order keep both lists non-empty and canonical. */
  lemma RecordsOk(body: Body, today: CalendarDay, o: Order)
    ensures ValidCreation(body) ==> OrderOk(NewOrder(body, today))
    ensures ValidUpdate(body) && OrderOk(o) ==> OrderOk(UpdateOrder(o, body))
  {
  }

  /**
   `defaultDate` and the date pattern disagree on days 1 to 9: for a four-digit year the default
   date has the `YYYY-MM-DD` shape exactly when the day has two digits.
   */
  lemma DefaultDateMatchesIff(year: nat, month: nat, day: nat)
    requires 1000 <= year <= 9999 && 1 <= month <= 12 && 1 <= day <= 31
    ensures IsDate(DefaultDate(year, month, day)) <==> day >= 10
  {
    var r := DefaultDate(year, month, day);
    var y := NatToString(year);
    DefaultDateLayout(year, month, day);
    assert |y| == 4 by { YearHasFourDigits(year); }
    if day >= 10 {
      var d := NatToString(day);
      assert |d| == 2;
      assert r[8..10] == d;
      assert DecimalValue(d) == 10 * (d[0] as int - '0' as int) + (d[1] as int - '0' as int) by {
        assert d[..1] == [d[0]];
      }
      assert TwoDigitValue(r[8], r[9]) == day;
      var m := r[5..7];
      assert DecimalValue(m) == 10 * (m[0] as int - '0' as int) + (m[1] as int - '0' as int) by {
        assert m[..1] == [m[0]];
      }
      assert TwoDigitValue(r[5], r[6]) == month;
      DateMeansRanges(r);
    }
  }

  lemma YearHasFourDigits(year: nat)
    requires 1000 <= year <= 9999
    ensures |NatToString(year)| == 4
  {
    assert |NatToString(year / 10)| == 3 by {
      assert |NatToString(year / 100)| == 2 by {
        assert |NatToString(year / 1000)| == 1;
      }
    }
  }
}
