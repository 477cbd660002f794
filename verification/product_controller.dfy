/**
 The product handlers as functions from a request and the product collection to a response and
 the collection afterwards. `newId` is the id the store assigns to a created record; `fault` is an
 error the store throws at the handler's persistence call. A duplicate stored name is the
 store's unique-index violation, which `handleError` turns into a 409.
 */
module ProductController {
  import opened Common
  import opened Text
  import opened Patterns
  import opened Json
  import opened Rules
  import opened Ids
  import opened Messages
  import opened Http
  import opened Handlers
  import opened ProductSchema

  /** `postProduct`: validate, then create under a fresh id. */
  function PostProduct(products: map<Id, Product>, body: Body, newId: Id, fault: Option<string>)
    : (o: Outcome<Product>)
    requires IsKey(newId) && newId !in products
    ensures ValidBody(body) <==> Validate(ProductRules, body) == None
    ensures o.response.status == 201 <==>
      ValidBody(body) && fault.None? && !NameTaken(products, NewProduct(body).name, None)
    ensures o.response.status == 201 ==>
      && o.response.payload == One(newId, NewProduct(body))
      && o.store == products[newId := NewProduct(body)]
    ensures o.response.status != 201 ==> o.store == products
    ensures !ValidBody(body) ==> o.response == BadRequest(Validate(ProductRules, body).value)
    ensures ValidBody(body) && fault.Some? ==> o.response == Fault(fault.value)
    ensures ValidBody(body) && fault.None? && NameTaken(products, NewProduct(body).name, None) ==>
      o.response == Response(409, ErrorBody(ProductAlreadyInserted))
  {
    AcceptsIff(body);
    match ValidateRequest(ProductRules, body)
    case Some(bad) => Outcome(bad, products)
    case None =>
      var p := NewProduct(body);
      if fault.Some? then Outcome(HandleError(ProductAlreadyInserted, Failure(fault.value)), products)
      else if NameTaken(products, p.name, None) then
        Outcome(HandleError(ProductAlreadyInserted, DuplicateKey), products)
      else Outcome(Response(201, One(newId, p)), products[newId := p])
  }

  /**
   `putProduct`: the id's format, then the body against the creation rules (so `name` is
   required), then the update, which answers 404 for an absent record before any name clash.
   */
  function PutProduct(products: map<Id, Product>, id: string, body: Body, fault: Option<string>)
    : (o: Outcome<Product>)
    ensures ValidBody(body) <==> Validate(ProductRules, body) == None
    ensures o.response.status == 200 <==>
      && IsObjectId(id) && ValidBody(body) && fault.None? && Key(id) in products
      && !NameTaken(products, NewProduct(body).name, Some(Key(id)))
    ensures o.response.status == 200 ==>
      && o.response.payload == One(Key(id), NewProduct(body))
      && o.store == products[Key(id) := NewProduct(body)]
    ensures o.response.status != 200 ==> o.store == products
    ensures !IsObjectId(id) ==> o.response == BadRequest(InvalidId(ProductEntity, id))
    ensures IsObjectId(id) && !ValidBody(body) ==>
      o.response == BadRequest(Validate(ProductRules, body).value)
    ensures IsObjectId(id) && ValidBody(body) && fault.Some? ==> o.response == Fault(fault.value)
    ensures IsObjectId(id) && ValidBody(body) && fault.None? && Key(id) !in products ==>
      o.response == Response(404, ErrorBody(NotFound(ProductEntity, id)))
    ensures IsObjectId(id) && ValidBody(body) && fault.None? && Key(id) in products
            && NameTaken(products, NewProduct(body).name, Some(Key(id))) ==>
      o.response == Response(409, ErrorBody(ProductAlreadyInserted))
  {
    AcceptsIff(body);
    match CheckIdFormat(ProductEntity, id)
    case Some(bad) => Outcome(bad, products)
    case None =>
      match ValidateRequest(ProductRules, body)
      case Some(bad) => Outcome(bad, products)
      case None =>
        var p := NewProduct(body);
        if fault.Some? then Outcome(HandleError(ProductAlreadyInserted, Failure(fault.value)), products)
        else match CheckFound(ProductEntity, id, Find(products, id))
          case Some(missing) => Outcome(missing, products)
          case None =>
            if NameTaken(products, p.name, Some(Key(id))) then
              Outcome(HandleError(ProductAlreadyInserted, DuplicateKey), products)
            else Outcome(Response(200, One(Key(id), p)), products[Key(id) := p])
  }

  /** `deleteProduct`. */
  function DeleteProduct(products: map<Id, Product>, id: string, fault: Option<string>)
    : (o: Outcome<Product>)
    ensures o.response.status == 200 <==> IsObjectId(id) && fault.None? && Key(id) in products
    ensures o.response.status == 200 ==>
      o.response.payload == One(Key(id), products[Key(id)]) && o.store == products - {Key(id)}
    ensures o.response.status != 200 ==> o.store == products
  {
    DeleteById(ProductEntity, products, id, fault)
  }

  /** `getProducts`: one product when the route carries an id, otherwise all of them. */
  function GetProducts(products: map<Id, Product>, id: Option<string>, fault: Option<string>)
    : (o: Outcome<Product>)
    ensures o.store == products
    ensures id.None? || id == Some("") ==> o == ListAll(products, fault)
    ensures id.Some? && id.value != "" ==> o == GetById(ProductEntity, products, id.value, fault)
  {
    match id
    case Some(i) => if i != "" then GetById(ProductEntity, products, i, fault) else ListAll(products, fault)
    case None => ListAll(products, fault)
  }

  // ---- The collection invariant ----

  /** Creating keeps every stored name in stored form and all names distinct. */
  lemma PostKeepsProductsOk(products: map<Id, Product>, body: Body, newId: Id, fault: Option<string>)
    requires IsKey(newId) && newId !in products
    requires ProductsOk(products)
    ensures ProductsOk(PostProduct(products, body, newId, fault).store)
  {
    var o := PostProduct(products, body, newId, fault);
    if o.response.status == 201 {
      StoreKeepsProductsOk(products, newId, NewProduct(body));
    }
  }

  /** Updating keeps every stored name in stored form and all names distinct. */
  lemma PutKeepsProductsOk(products: map<Id, Product>, id: string, body: Body, fault: Option<string>)
    requires ProductsOk(products)
    ensures ProductsOk(PutProduct(products, id, body, fault).store)
  {
    var o := PutProduct(products, id, body, fault);
    if o.response.status == 200 {
      KeyOfObjectId(id);
      StoreKeepsProductsOk(products, Key(id), NewProduct(body));
    }
  }

  /** Deleting keeps the collection well formed. */
  lemma DeleteKeepsProductsOk(products: map<Id, Product>, id: string, fault: Option<string>)
    requires ProductsOk(products)
    ensures ProductsOk(DeleteProduct(products, id, fault).store)
  {
    var o := DeleteProduct(products, id, fault);
    if o.response.status == 200 {
      RemoveKeepsProductsOk(products, Key(id));
    }
  }

  // ---- Round trips and conflicts ----

  /** A created product can be read back by its id, exactly as created. */
  lemma PostThenGet(products: map<Id, Product>, body: Body, newId: Id)
    requires IsKey(newId) && newId !in products
    requires ValidBody(body) && !NameTaken(products, NewProduct(body).name, None)
    ensures GetProducts(PostProduct(products, body, newId, None).store, Some(newId), None).response
         == Response(200, One(newId, NewProduct(body)))
  {
    KeyOfKey(newId);
  }

  /** Creating the same product twice: the second request conflicts and changes nothing. */
  lemma PostTwiceConflicts(products: map<Id, Product>, body: Body, a: Id, b: Id)
    requires IsKey(a) && a !in products && IsKey(b) && b !in products && a != b
    requires ValidBody(body) && !NameTaken(products, NewProduct(body).name, None)
    ensures var after := PostProduct(products, body, a, None).store;
      PostProduct(after, body, b, None)
        == Outcome(Response(409, ErrorBody(ProductAlreadyInserted)), after)
  {
    var after := PostProduct(products, body, a, None).store;
    assert NameTaken(after, NewProduct(body).name, None) by {
      assert a in after && after[a].name == NewProduct(body).name;
    }
  }

  /** A name that differs from a stored one only in case and surrounding blanks conflicts. */
  lemma PostConflictsUpToCase(products: map<Id, Product>, body: Body, newId: Id, k: Id)
    requires IsKey(newId) && newId !in products
    requires ProductsOk(products) && ValidBody(body)
    requires k in products && FoldCase(products[k].name) == FoldCase(Lookup(body, "name").value.str)
    ensures PostProduct(products, body, newId, None).response == Response(409, ErrorBody(ProductAlreadyInserted))
  {
    NameTakenIff(products, body, None);
  }

  /** An update with no name is refused, because the update reuses the creation rules. */
  lemma PutRequiresName(products: map<Id, Product>, id: string, body: Body, fault: Option<string>)
    requires IsObjectId(id) && Lookup(body, "name").None?
    ensures PutProduct(products, id, body, fault).response == BadRequest(Required("name"))
  {
    BadName(body);
  }

  /** Listing never answers 404: an empty collection is listed as empty. */
  lemma ListNever404(products: map<Id, Product>)
    ensures GetProducts(products, None, None).response == Response(200, Many(products))
  {
  }
}
