/**
 The order handlers as functions from a request and the collections to a response and the order
 collection afterwards. Orders reference products and users, which the handlers only read.
 `newId` is the id the store assigns to a created order, `today` the server's calendar day, and
 `fault` an error the store throws at the handler's persistence call. The order handlers have no
 duplicate-key mapping: every error they catch is a 500.
 */
module OrderController {
  import opened Common
  import opened Text
  import opened Patterns
  import opened Json
  import opened Rules
  import opened Ids
  import opened Messages
  import opened Http
  import opened Handlers
  import opened OrderSchema
  import opened OrderUtils
  import ProductSchema
  import UserSchema

  /** The id strings of a JSON id list, as written in the body (nothing for any other value). */
  function ListedIds(v: Json): (ids: seq<string>)
    ensures IsIdList(v) ==> |ids| == |v.items| && forall i :: 0 <= i < |ids| ==> ids[i] == v.items[i].str
  {
    match v
    case JArray(items) =>
      seq(|items|, i requires 0 <= i < |items| => if items[i].JString? then items[i].str else "")
    case _ => []
  }

  /** Whether every id of the list names a record of `store`. */
  predicate AllExist<T>(store: map<Id, T>, ids: seq<string>) {
    forall i :: 0 <= i < |ids| ==> Key(ids[i]) in store
  }

  /**
   `postOrder`: the body, then the existence of every product, then of every user, then the
   creation. The first failure answers and nothing is created.
   */
  function PostOrder(orders: map<Id, Order>, products: map<Id, ProductSchema.Product>, users: map<Id, UserSchema.User>,
                     body: Body, today: CalendarDay, newId: Id, fault: Option<string>): (o: Outcome<Order>)
    requires IsKey(newId) && newId !in orders
    ensures ValidCreation(body) <==> Validate(OrderPost, body) == None
    ensures o.response.status == 201 <==>
      && ValidCreation(body)
      && AllExist(products, ListedIds(Lookup(body, "products").value))
      && AllExist(users, ListedIds(Lookup(body, "users").value))
      && fault.None?
    ensures o.response.status == 201 ==>
      && o.response.payload == One(newId, NewOrder(body, today))
      && o.store == orders[newId := NewOrder(body, today)]
    ensures o.response.status != 201 ==> o.store == orders
    ensures !ValidCreation(body) ==> o.response == BadRequest(Validate(OrderPost, body).value)
    ensures ValidCreation(body) && !AllExist(products, ListedIds(Lookup(body, "products").value)) ==>
      Some(o.response) == IsIdExists(ProductEntity, products, ListedIds(Lookup(body, "products").value))
    ensures && ValidCreation(body) && AllExist(products, ListedIds(Lookup(body, "products").value))
            && !AllExist(users, ListedIds(Lookup(body, "users").value)) ==>
      Some(o.response) == IsIdExists(UserEntity, users, ListedIds(Lookup(body, "users").value))
    ensures && ValidCreation(body) && AllExist(products, ListedIds(Lookup(body, "products").value))
            && AllExist(users, ListedIds(Lookup(body, "users").value)) && fault.Some? ==>
      o.response == Fault(fault.value)
  {
    PostAcceptsIff(body);
    match ValidateRequest(OrderPost, body)
    case Some(bad) => Outcome(bad, orders)
    case None =>
      match IsIdExists(ProductEntity, products, ListedIds(Lookup(body, "products").value))
      case Some(missing) => Outcome(missing, orders)
      case None =>
        match IsIdExists(UserEntity, users, ListedIds(Lookup(body, "users").value))
        case Some(missing) => Outcome(missing, orders)
        case None =>
          if fault.Some? then Outcome(Fault(fault.value), orders)
          else
            var order := NewOrder(body, today);
            Outcome(Response(201, One(newId, order)), orders[newId := order])
  }

  /** The existence check `putOrder` runs for a list, only when the body gives that list. */
  function CheckGiven<R, T>(entity: Entity, store: map<Id, T>, v: Option<Json>): (r: Option<Response<R>>)
    ensures v.None? ==> r.None?
    ensures v.Some? ==> r == IsIdExists(entity, store, ListedIds(v.value))
  {
    match v
    case Some(list) => IsIdExists(entity, store, ListedIds(list))
    case None => None
  }

  /** Whether a list the body gives names only existing records; an absent list passes. */
  predicate GivenExist<T>(store: map<Id, T>, v: Option<Json>) {
    v.Some? ==> AllExist(store, ListedIds(v.value))
  }

  /**
   `putOrder`: the id's format, then the body against the update rules, then `PutChecked`.
   */
  function PutOrder(orders: map<Id, Order>, products: map<Id, ProductSchema.Product>, users: map<Id, UserSchema.User>,
                    id: string, body: Body, fault: Option<string>): (o: Outcome<Order>)
    ensures ValidUpdate(body) <==> Validate(OrderPut, body) == None
    ensures !IsObjectId(id) ==> o.response == BadRequest(InvalidId(OrderEntity, id)) && o.store == orders
    ensures IsObjectId(id) && !ValidUpdate(body) ==>
      o.response == BadRequest(Validate(OrderPut, body).value) && o.store == orders
    ensures IsObjectId(id) && ValidUpdate(body) ==> o == PutChecked(orders, products, users, id, body, fault)
  {
    PutAcceptsIff(body);
    match CheckIdFormat(OrderEntity, id)
    case Some(bad) => Outcome(bad, orders)
    case None =>
      match ValidateRequest(OrderPut, body)
      case Some(bad) => Outcome(bad, orders)
      case None => PutChecked(orders, products, users, id, body, fault)
  }

  /**
   The rest of `putOrder` once the id and the body are valid: the existence of the products and
   users the body gives, then the update, which answers 404 for an absent order.
   */
  function PutChecked(orders: map<Id, Order>, products: map<Id, ProductSchema.Product>, users: map<Id, UserSchema.User>,
                      id: string, body: Body, fault: Option<string>): (o: Outcome<Order>)
    requires IsObjectId(id) && ValidUpdate(body)
    ensures o.response.status == 200 <==>
      && GivenExist(products, Lookup(body, "products")) && GivenExist(users, Lookup(body, "users"))
      && fault.None? && Key(id) in orders
    ensures o.response.status == 200 ==>
      && o.response.payload == One(Key(id), UpdateOrder(orders[Key(id)], body))
      && o.store == orders[Key(id) := UpdateOrder(orders[Key(id)], body)]
    ensures o.response.status != 200 ==> o.store == orders
    ensures !GivenExist(products, Lookup(body, "products")) ==>
      Some(o.response) == CheckGiven(ProductEntity, products, Lookup(body, "products"))
    ensures GivenExist(products, Lookup(body, "products")) && !GivenExist(users, Lookup(body, "users")) ==>
      Some(o.response) == CheckGiven(UserEntity, users, Lookup(body, "users"))
    ensures && GivenExist(products, Lookup(body, "products")) && GivenExist(users, Lookup(body, "users"))
            && fault.Some? ==>
      o.response == Fault(fault.value)
    ensures && GivenExist(products, Lookup(body, "products")) && GivenExist(users, Lookup(body, "users"))
            && fault.None? && Key(id) !in orders ==>
      o.response == Response(404, ErrorBody(NotFound(OrderEntity, id)))
  {
    match CheckGiven(ProductEntity, products, Lookup(body, "products"))
    case Some(missing) => Outcome(missing, orders)
    case None =>
      match CheckGiven(UserEntity, users, Lookup(body, "users"))
      case Some(missing) => Outcome(missing, orders)
      case None =>
        if fault.Some? then Outcome(Fault(fault.value), orders)
        else match CheckFound(OrderEntity, id, Find(orders, id))
          case Some(absent) => Outcome(absent, orders)
          case None =>
            var updated := UpdateOrder(orders[Key(id)], body);
            Outcome(Response(200, One(Key(id), updated)), orders[Key(id) := updated])
  }

  /** `deleteOrder`: the order is read, then removed, and the record read is returned. */
  function DeleteOrder(orders: map<Id, Order>, id: string, fault: Option<string>): (o: Outcome<Order>)
    ensures o.response.status == 200 <==> IsObjectId(id) && fault.None? && Key(id) in orders
    ensures o.response.status == 200 ==>
      o.response.payload == One(Key(id), orders[Key(id)]) && o.store == orders - {Key(id)}
    ensures o.response.status != 200 ==> o.store == orders
  {
    DeleteById(OrderEntity, orders, id, fault)
  }

  /** `getOrder`. */
  function GetOrder(orders: map<Id, Order>, id: string, fault: Option<string>): (o: Outcome<Order>)
    ensures o.store == orders
    ensures o.response.status == 200 <==> IsObjectId(id) && fault.None? && Key(id) in orders
    ensures o.response.status == 200 ==> o.response.payload == One(Key(id), orders[Key(id)])
    ensures IsObjectId(id) && fault.None? && Key(id) !in orders ==>
      o.response == Response(404, ErrorBody(NotFound(OrderEntity, id)))
  {
    GetById(OrderEntity, orders, id, fault)
  }

  // ---- The collection invariant ----

  lemma PostKeepsOrdersOk(orders: map<Id, Order>, products: map<Id, ProductSchema.Product>, users: map<Id, UserSchema.User>,
                          body: Body, today: CalendarDay, newId: Id, fault: Option<string>)
    requires IsKey(newId) && newId !in orders && OrdersOk(orders)
    ensures OrdersOk(PostOrder(orders, products, users, body, today, newId, fault).store)
  {
    var o := PostOrder(orders, products, users, body, today, newId, fault);
    if o.response.status == 201 {
      RecordsOk(body, today, NewOrder(body, today));
      StoreKeepsOrdersOk(orders, newId, NewOrder(body, today));
    }
  }

  lemma PutKeepsOrdersOk(orders: map<Id, Order>, products: map<Id, ProductSchema.Product>, users: map<Id, UserSchema.User>,
                         id: string, body: Body, fault: Option<string>)
    requires OrdersOk(orders)
    ensures OrdersOk(PutOrder(orders, products, users, id, body, fault).store)
  {
    var o := PutOrder(orders, products, users, id, body, fault);
    if o.response.status == 200 {
      KeyOfObjectId(id);
      var today := CalendarDay(0, 0, 0);
      RecordsOk(body, today, orders[Key(id)]);
      StoreKeepsOrdersOk(orders, Key(id), UpdateOrder(orders[Key(id)], body));
    }
  }

  lemma DeleteKeepsOrdersOk(orders: map<Id, Order>, id: string, fault: Option<string>)
    requires OrdersOk(orders)
    ensures OrdersOk(DeleteOrder(orders, id, fault).store)
  {
  }

  /** Storing a well-formed order under a canonical key keeps the collection well formed. */
  lemma StoreKeepsOrdersOk(orders: map<Id, Order>, k: Id, order: Order)
    requires OrdersOk(orders) && IsKey(k) && OrderOk(order)
    ensures OrdersOk(orders[k := order])
  {
  }

  // ---- Pipelines ----

  /** A created order can be read back by its id, exactly as created. */
  lemma PostThenGet(orders: map<Id, Order>, products: map<Id, ProductSchema.Product>, users: map<Id, UserSchema.User>,
                    body: Body, today: CalendarDay, newId: Id)
    requires IsKey(newId) && newId !in orders
    requires ValidCreation(body)
    requires AllExist(products, ListedIds(Lookup(body, "products").value))
    requires AllExist(users, ListedIds(Lookup(body, "users").value))
    ensures GetOrder(PostOrder(orders, products, users, body, today, newId, None).store, newId, None).response
         == Response(200, One(newId, NewOrder(body, today)))
  {
    KeyOfKey(newId);
  }

  /** When a product is missing the users are never looked at: the answer does not depend on them. */
  lemma PostStopsAtMissingProduct(orders: map<Id, Order>, products: map<Id, ProductSchema.Product>,
                                  users: map<Id, UserSchema.User>, others: map<Id, UserSchema.User>,
                                  body: Body, today: CalendarDay, newId: Id, fault: Option<string>)
    requires IsKey(newId) && newId !in orders
    requires ValidCreation(body) && !AllExist(products, ListedIds(Lookup(body, "products").value))
    ensures PostOrder(orders, products, users, body, today, newId, fault)
         == PostOrder(orders, products, others, body, today, newId, fault)
  {
  }

  /** An update that gives neither list never consults the product or user collections. */
  lemma PutWithoutLists(orders: map<Id, Order>, products: map<Id, ProductSchema.Product>, users: map<Id, UserSchema.User>,
                        ps: map<Id, ProductSchema.Product>, us: map<Id, UserSchema.User>, id: string, body: Body, fault: Option<string>)
    requires Lookup(body, "products").None? && Lookup(body, "users").None?
    ensures PutOrder(orders, products, users, id, body, fault) == PutOrder(orders, ps, us, id, body, fault)
  {
    PutAcceptsIff(body);
  }

  /** `{}` is a valid update that leaves an existing order as it was. */
  lemma PutEmptyBody(orders: map<Id, Order>, products: map<Id, ProductSchema.Product>, users: map<Id, UserSchema.User>, id: string)
    requires IsObjectId(id) && Key(id) in orders
    ensures PutOrder(orders, products, users, id, [], None)
         == Outcome(Response(200, One(Key(id), orders[Key(id)])), orders)
  {
    PutAcceptsIff([]);
    var u := UpdateOrder(orders[Key(id)], []);
    assert u == orders[Key(id)];
    assert orders[Key(id) := u] == orders;
  }
}
