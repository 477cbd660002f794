/**
 The product entity and its request rule table. A product has only a name; the name is trimmed
 by the rules, normalised by `capitalizedFirstLetter` when stored, and unique among products.
 */
module ProductSchema {
  import opened Common
  import opened Text
  import opened Json
  import opened Rules
  import opened Ids
  import opened Messages

  /** A stored product: its normalised name. */
  datatype Product = Product(name: string)

  /** The name is trimmed before it is checked, and no pattern is imposed on it. */
  const NameRule := StringRule(ProductName, true, None)
  const NameField := Field("name", true, StringKind(NameRule))

  /** `productJoiSchema`, used for both creation and update: `name` required, nothing else. */
  const ProductRules := Schema([NameField])

  lemma ProductKeys()
    ensures DeclaredKeys(ProductRules) == {"name"}
  {
    assert ProductRules.fields[0].key == "name";
  }

  // ---- What a valid body is, without messages ----

  /** A name is acceptable when it is a string that is not blank. */
  predicate NameOk(v: Option<Json>) {
    v.Some? && v.value.JString? && Trim(v.value.str) != []
  }

  /** A valid body: a name that is not blank, and no other key. */
  predicate ValidBody(body: Body) {
    && NameOk(Lookup(body, "name"))
    && forall j :: 0 <= j < |body| ==> body[j].key == "name"
  }

  lemma FieldsMeaning(body: Body)
    ensures FieldsOk(ProductRules, body) <==> NameOk(Lookup(body, "name"))
  {
    var fs := ProductRules.fields;
    assert |fs| == 1 && fs[0] == NameField && NameField.key == "name";
    assert FieldsOk(ProductRules, body) <==> FieldOk(fs[0], Lookup(body, fs[0].key));
  }

  /** The rules accept a body exactly when it is valid. */
  lemma AcceptsIff(body: Body)
    ensures Validate(ProductRules, body) == None <==> ValidBody(body)
  {
    ProductKeys();
    FieldsMeaning(body);
  }

  // ---- The messages ----

  /**
   A missing name, a name that is not a string, and a name that is blank once trimmed are each
   reported with their own message.
   */
  lemma BadName(body: Body)
    ensures Lookup(body, "name").None? ==> Validate(ProductRules, body) == Some(Required("name"))
    ensures Lookup(body, "name").Some? && !Lookup(body, "name").value.JString? ==>
      Validate(ProductRules, body) == Some(NotString(ProductName))
    ensures Lookup(body, "name").Some? && Lookup(body, "name").value.JString?
            && Trim(Lookup(body, "name").value.str) == [] ==>
      Validate(ProductRules, body) == Some(EmptyString(ProductName))
  {
    FieldsMeaning(body);
    if !NameOk(Lookup(body, "name")) {
      ValidateReportsFirstBadField(ProductRules, body, 0);
    }
  }

  /** Once the name is acceptable, the key other than `name` that `Object.keys` lists first is reported. */
  lemma UnknownKey(body: Body, j: nat)
    requires NameOk(Lookup(body, "name"))
    requires j < |body| && body[j].key != "name"
    requires forall i :: 0 <= i < |body| && body[i].key != "name" ==> ListedNoLater(body, j, i)
    ensures Validate(ProductRules, body) == Some(NotAllowed(body[j].key))
  {
    ProductKeys();
    FieldsMeaning(body);
    ReportsUnknownKey(ProductRules, body, {"name"}, j);
  }

  // ---- The stored record ----

  /** A name in stored form: not blank, and left unchanged by normalisation. */
  predicate IsNormalName(n: string) {
    Trim(n) != [] && CapitalizedFirstLetter(n) == n
  }

  /**
   `Product.create(body)`: the name passes through the `capitalizedFirstLetter` setter. The stored
   name is in stored form and is the given name up to case and surrounding whitespace.
   */
  function NewProduct(body: Body): (p: Product)
    requires ValidBody(body)
    ensures IsNormalName(p.name)
    ensures FoldCase(p.name) == FoldCase(Lookup(body, "name").value.str)
  {
    var raw := Lookup(body, "name").value.str;
    var n := CapitalizedFirstLetter(raw);
    CapitalizedIdempotent(raw);
    CapitalizedEqualIff(n, raw);
    Product(n)
  }

  /** A stored-form name is determined by its folded text. */
  lemma NormalNameUnique(a: string, b: string)
    requires IsNormalName(a) && IsNormalName(b)
    ensures a == b <==> FoldCase(a) == FoldCase(b)
  {
    CapitalizedEqualIff(a, b);
  }

  /** Whether a product other than `except` already has the stored name `name`. */
  predicate NameTaken(products: map<Id, Product>, name: string, except: Option<Id>) {
    exists k :: k in products && Some(k) != except && products[k].name == name
  }

  /** The unique index on `name`: no two products share a stored name. */
  predicate NamesUnique(products: map<Id, Product>) {
    forall a, b :: a in products && b in products && a != b ==> products[a].name != products[b].name
  }

  /** Every product is keyed canonically and has a stored-form name. */
  predicate NamesNormal(products: map<Id, Product>) {
    forall k :: k in products ==> IsKey(k) && IsNormalName(products[k].name)
  }

  predicate ProductsOk(products: map<Id, Product>) {
    NamesNormal(products) && NamesUnique(products)
  }

  /**
   The unique index compares stored names, so a new name collides with a stored one exactly when
   the two agree up to ASCII case and surrounding whitespace.
   */
  lemma NameTakenIff(products: map<Id, Product>, body: Body, except: Option<Id>)
    requires ProductsOk(products) && ValidBody(body)
    ensures NameTaken(products, NewProduct(body).name, except) <==>
      exists k :: k in products && Some(k) != except
                  && FoldCase(products[k].name) == FoldCase(Lookup(body, "name").value.str)
  {
    var n := NewProduct(body).name;
    forall k | k in products
      ensures products[k].name == n <==> FoldCase(products[k].name) == FoldCase(n)
    {
      NormalNameUnique(products[k].name, n);
    }
  }

  /** Storing a stored-form name that no other product has keeps the collection well formed. */
  lemma StoreKeepsProductsOk(products: map<Id, Product>, k: Id, p: Product)
    requires ProductsOk(products) && IsKey(k) && IsNormalName(p.name)
    requires !NameTaken(products, p.name, Some(k))
    ensures ProductsOk(products[k := p])
  {
    StoreKeepsNamesNormal(products, k, p);
    StoreKeepsNamesUnique(products, k, p);
  }

  lemma StoreKeepsNamesNormal(products: map<Id, Product>, k: Id, p: Product)
    requires NamesNormal(products) && IsKey(k) && IsNormalName(p.name)
    ensures NamesNormal(products[k := p])
  {
    var after := products[k := p];
    forall a | a in after ensures IsKey(a) && IsNormalName(after[a].name) {
      if a != k {
        assert after[a] == products[a];
      }
    }
  }

  lemma StoreKeepsNamesUnique(products: map<Id, Product>, k: Id, p: Product)
    requires NamesUnique(products) && !NameTaken(products, p.name, Some(k))
    ensures NamesUnique(products[k := p])
  {
    var after := products[k := p];
    forall a, b | a in after && b in after && a != b
      ensures after[a].name != after[b].name
    {
      if a == k {
        assert b in products && Some(b) != Some(k);
      } else if b == k {
        assert a in products && Some(a) != Some(k);
      }
    }
  }

  /** Removing a product keeps the collection well formed. */
  lemma RemoveKeepsProductsOk(products: map<Id, Product>, k: Id)
    requires ProductsOk(products)
    ensures ProductsOk(products - {k})
  {
  }
}
