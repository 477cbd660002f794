/**
 `getOrders`: the query-string filter builder and the listing it drives. The three parameters
 are checked in the order date, product, user; the first malformed one answers 400 with its own
 message. A parameter that is absent or empty adds nothing; the others are combined with AND.
 */
module OrderQuery {
  import opened Common
  import opened Patterns
  import opened Ids
  import opened Messages
  import opened Http
  import opened Handlers
  import opened OrderSchema

  /** The query-string parameters `date`, `product` and `user`, absent when not given. */
  datatype Query = Query(date: Option<string>, product: Option<string>, user: Option<string>)

  /** The store query built from them: the stored date, a listed product id, a listed user id. */
  datatype Filter = Filter(date: Option<string>, products: Option<string>, users: Option<string>)

  datatype Built = Rejected(error: Message) | Built(filter: Filter)

  /** A parameter counts only when it is given and not empty, as a JavaScript truthiness test. */
  predicate Given(p: Option<string>) {
    p.Some? && p.value != ""
  }

  /** The parameter kept in the filter: its value when given, nothing otherwise. */
  function Kept(p: Option<string>): (r: Option<string>)
    ensures r.Some? <==> Given(p)
    ensures r.Some? ==> r == p
  {
    if Given(p) then p else None
  }

  /** The filter for a query, or the message of its first malformed parameter. */
  function BuildFilter(q: Query): (b: Built)
    ensures Given(q.date) && !IsDate(q.date.value) ==> b == Rejected(InvalidDateQuery)
    ensures (Given(q.date) ==> IsDate(q.date.value)) && Given(q.product) && !IsObjectId(q.product.value) ==>
      b == Rejected(InvalidProductQuery)
    ensures && (Given(q.date) ==> IsDate(q.date.value))
            && (Given(q.product) ==> IsObjectId(q.product.value))
            && Given(q.user) && !IsObjectId(q.user.value) ==>
      b == Rejected(InvalidUserQuery)
    ensures b.Built? <==>
      && (Given(q.date) ==> IsDate(q.date.value))
      && (Given(q.product) ==> IsObjectId(q.product.value))
      && (Given(q.user) ==> IsObjectId(q.user.value))
    ensures b.Built? ==> b.filter == Filter(Kept(q.date), Kept(q.product), Kept(q.user))
  {
    if Given(q.date) && !IsDate(q.date.value) then Rejected(InvalidDateQuery)
    else if Given(q.product) && !IsObjectId(q.product.value) then Rejected(InvalidProductQuery)
    else if Given(q.user) && !IsObjectId(q.user.value) then Rejected(InvalidUserQuery)
    else Built(Filter(Kept(q.date), Kept(q.product), Kept(q.user)))
  }

  /**
   Whether an order satisfies the filter: the same date text, and the given product and user
   among its lists (compared as ObjectIds, so regardless of hex-digit case).
   */
  predicate Matches(o: Order, f: Filter) {
    && (f.date.Some? ==> o.date == f.date.value)
    && (f.products.Some? ==> Key(f.products.value) in o.products)
    && (f.users.Some? ==> Key(f.users.value) in o.users)
  }

  /** `Order.find(query)`: the orders that satisfy the filter. */
  function Selected(orders: map<Id, Order>, f: Filter): (m: map<Id, Order>)
    ensures forall k :: k in m <==> k in orders && Matches(orders[k], f)
    ensures forall k :: k in m ==> m[k] == orders[k]
  {
    map k | k in orders && Matches(orders[k], f) :: orders[k]
  }

  /** `getOrders`: 400 for a malformed parameter, 404 when nothing matches, else the matches. */
  function GetOrders(orders: map<Id, Order>, q: Query, fault: Option<string>): (o: Outcome<Order>)
    ensures o.store == orders
    ensures BuildFilter(q).Rejected? ==> o.response == BadRequest(BuildFilter(q).error)
    ensures BuildFilter(q).Built? && fault.Some? ==> o.response == Fault(fault.value)
    ensures o.response.status == 404 <==>
      && BuildFilter(q).Built? && fault.None?
      && forall k :: k in orders ==> !Matches(orders[k], BuildFilter(q).filter)
    ensures o.response.status == 404 ==> o.response.payload == ErrorBody(NoneStored(OrderEntity))
    ensures o.response.status == 200 <==>
      && BuildFilter(q).Built? && fault.None?
      && exists k :: k in orders && Matches(orders[k], BuildFilter(q).filter)
    ensures o.response.status == 200 ==>
      o.response.payload == Many(Selected(orders, BuildFilter(q).filter))
  {
    match BuildFilter(q)
    case Rejected(m) => Outcome(BadRequest(m), orders)
    case Built(f) =>
      if fault.Some? then Outcome(Fault(fault.value), orders)
      else
        var found := Selected(orders, f);
        if found == map[] then Outcome(Response(404, ErrorBody(NoneStored(OrderEntity))), orders)
        else Outcome(Response(200, Many(found)), orders)
  }

  // ---- Properties of the filter ----

  /** Empty parameters are the same as absent ones. */
  lemma EmptyParamsAddNothing(orders: map<Id, Order>, fault: Option<string>)
    ensures GetOrders(orders, Query(Some(""), Some(""), Some("")), fault)
         == GetOrders(orders, Query(None, None, None), fault)
  {
  }

  /** With no parameter every order is listed, and the answer is 404 exactly when there is none. */
  lemma NoFilterListsAll(orders: map<Id, Order>)
    ensures GetOrders(orders, Query(None, None, None), None).response
         == if orders == map[] then Response(404, ErrorBody(NoneStored(OrderEntity)))
            else Response(200, Many(orders))
  {
    var f := Filter(None, None, None);
    assert Selected(orders, f) == orders;
  }

  /** The filter is the conjunction of its three one-parameter filters. */
  lemma MatchesIsConjunction(o: Order, f: Filter)
    ensures Matches(o, f) <==>
      && Matches(o, Filter(f.date, None, None))
      && Matches(o, Filter(None, f.products, None))
      && Matches(o, Filter(None, None, f.users))
  {
  }

  /** Adding a parameter can only narrow the selection. */
  lemma MoreParamsSelectFewer(orders: map<Id, Order>, f: Filter, g: Filter)
    requires f.date.Some? ==> g.date == f.date
    requires f.products.Some? ==> g.products == f.products
    requires f.users.Some? ==> g.users == f.users
    ensures Selected(orders, g).Keys <= Selected(orders, f).Keys
  {
  }

  /**
   The unpadded default day makes an order created on days 1 to 9 without a date invisible to
   every date query: such a query must match the date pattern, and the stored date does not.
   */
  lemma DefaultDateNeverQueried(o: Order, today: CalendarDay, q: Query)
    requires 1000 <= today.year <= 9999 && 1 <= today.month <= 12 && 1 <= today.day <= 9
    requires o.date == DefaultDateOn(today)
    requires Given(q.date) && BuildFilter(q).Built?
    ensures !Matches(o, BuildFilter(q).filter)
  {
    DefaultDateMatchesIff(today.year, today.month, today.day);
  }
}
