/**
 * The meiro domain: users, products, and orders that hold a non-empty set of
 * product ids.
 */
module MeiroDomain {
  import opened Wrappers
  import opened Failures
  import opened MeiroShared

  type UserID = int
  type ProductID = int
  type OrderID = int

  /** A customer. Immutable; the id is never negative once constructed. */
  datatype User = User(id: nat, name: string, city: string)
  {
    /** The entity base of this user. */
    function Base(): Entity { Entity("User", id) }

    /** `self == other` for two users. */
    predicate Equals(other: User) { Base().Equals(other.Base()) }

    /** `hash(self)`. */
    function Hash(): (string, int) { Base().Hash() }

    /** `str(self)`. */
    function Str(): string { Base().Str() }

    /** `change_name`: a new user, built by the constructor, with this id and city and the given name. */
    function ChangeName(name: string): (r: Result<User, Error>)
      ensures r == Ok(User(id, name, city))
    {
      NewUser(id, name, city)
    }

    /** `change_city`: a new user, built by the constructor, with this id and name and the given city. */
    function ChangeCity(city: string): (r: Result<User, Error>)
      ensures r == Ok(User(id, name, city))
    {
      NewUser(id, name, city)
    }
  }

  /** `User(id, name, city)`: `ValueError` for a negative id, 0 allowed. */
  function NewUser(id: int, name: string, city: string): (r: Result<User, Error>)
    ensures r.Ok? <==> id >= 0
    ensures r.Err? ==> r.error == ValueError(NegativeIdentifier)
    ensures r.Ok? ==> r.value.id == id && r.value.name == name && r.value.city == city
  {
    if id < 0 then Err(ValueError(NegativeIdentifier)) else Ok(User(id, name, city))
  }

  /** A product; the price is an exact integer. */
  datatype Product = Product(id: nat, name: string, price: int)
  {
    function Base(): Entity { Entity("Product", id) }
    predicate Equals(other: Product) { Base().Equals(other.Base()) }
    function Hash(): (string, int) { Base().Hash() }
    function Str(): string { Base().Str() }
  }

  /** `Product(id, name, price)`: `ValueError` for a negative id. */
  function NewProduct(id: int, name: string, price: int): (r: Result<Product, Error>)
    ensures r.Ok? <==> id >= 0
    ensures r.Err? ==> r.error == ValueError(NegativeIdentifier)
    ensures r.Ok? ==> r.value.id == id && r.value.name == name && r.value.price == price
  {
    if id < 0 then Err(ValueError(NegativeIdentifier)) else Ok(Product(id, name, price))
  }

  /**
   * An order: its id, the id of its user, its creation time as a timestamp, and
   * the ids of its products frozen into a set, which is never empty.
   */
  datatype Order = Order(id: nat, user: UserID, created: int, products: set<ProductID>)
  {
    function Base(): Entity { Entity("Order", id) }
    predicate Equals(other: Order) { Base().Equals(other.Base()) }
    function Hash(): (string, int) { Base().Hash() }
    function Str(): string { Base().Str() }

    /** What the constructor guarantees. */
    predicate Valid() { products != {} }

    /** `has_product(product_id)`: whether the id is among the order's products. */
    predicate HasProduct(productId: ProductID) {
      productId in products
    }

    /**
     * `remove_product(product_id)` as written: `DomainError` when the product is
     * absent; otherwise `frozenset.difference` is handed the bare id, an `int`,
     * which raises `TypeError` before any order is built.
     */
    function RemoveProductAsWritten(productId: ProductID): (r: Result<Order, Error>)
      ensures r.Err?
      ensures r.error == DomainError(productId) <==> !HasProduct(productId)
    {
      if !HasProduct(productId) then Err(DomainError(productId)) else Err(TypeError)
    }

    /**
     * `remove_product(product_id)` as intended: `DomainError` when the product is
     * absent; otherwise the constructor is called again with the same id, user and
     * creation time and the other products, so that removing the last product
     * raises the constructor's `ValueError`.
     */
    function RemoveProduct(productId: ProductID): (r: Result<Order, Error>)
      ensures r.Ok? <==> HasProduct(productId) && products != {productId}
      ensures !HasProduct(productId) ==> r == Err(DomainError(productId))
      ensures r.Ok? ==> !r.value.HasProduct(productId) && r.value.products + {productId} == products
    {
      if !HasProduct(productId) then Err(DomainError(productId))
      else
        assert products - {productId} == {} <==> products == {productId};
        NewOrderFromSet(id, user, created, products - {productId})
    }
  }

  /** The constructor's checks, in their order, on products already frozen into a set. */
  function NewOrderFromSet(id: int, user: UserID, created: int, products: set<ProductID>): (r: Result<Order, Error>)
    ensures r.Ok? <==> id >= 0 && products != {}
    ensures id < 0 ==> r == Err(ValueError(NegativeIdentifier))
    ensures id >= 0 && products == {} ==> r == Err(ValueError(EmptyProducts))
    ensures r.Ok? ==> r.value == Order(id, user, created, products)
  {
    if id < 0 then Err(ValueError(NegativeIdentifier))
    else if products == {} then Err(ValueError(EmptyProducts))
    else Ok(Order(id, user, created, products))
  }

  /** The set of the elements of a sequence: `frozenset(products)`. */
  function SetOf(s: seq<ProductID>): (r: set<ProductID>)
    ensures forall x :: x in r <==> x in s
    ensures |r| <= |s| && (r == {} <==> s == [])
  {
    if s == [] then {} else {s[0]} + SetOf(s[1..])
  }

  /**
   * `Order(id, user, created, products)`: `ValueError` for a negative id, checked
   * first, then `ValueError` for an empty products collection; the products are
   * frozen into a set, so repeated ids collapse and their order is lost.
   */
  function NewOrder(id: int, user: UserID, created: int, products: seq<ProductID>): (r: Result<Order, Error>)
    ensures r.Ok? <==> id >= 0 && |products| > 0
    ensures id < 0 ==> r == Err(ValueError(NegativeIdentifier))
    ensures id >= 0 && |products| == 0 ==> r == Err(ValueError(EmptyProducts))
    ensures r.Ok? ==> && r.value.Valid() && r.value.id == id && r.value.user == user
                      && r.value.created == created
                      && forall p :: r.value.HasProduct(p) <==> p in products
  {
    if id < 0 then Err(ValueError(NegativeIdentifier))
    else if |products| == 0 then Err(ValueError(EmptyProducts))
    else Ok(Order(id, user, created, SetOf(products)))
  }

  // ---------------------------------------------------------------------------
  // Properties
  // ---------------------------------------------------------------------------

  /** The `id` property returns the id given to the constructor; equality and hashing go by it. */
  lemma UserIdentity(u: User, v: User)
    ensures u.Base().id == u.id
    ensures u.Equals(v) <==> u.id == v.id
    ensures u.Equals(v) <==> u.Hash() == v.Hash()
  {
  }

  lemma ProductIdentity(p: Product, q: Product)
    ensures p.Base().id == p.id
    ensures p.Equals(q) <==> p.id == q.id
    ensures p.Equals(q) <==> p.Hash() == q.Hash()
  {
  }

  lemma OrderIdentity(o: Order, q: Order)
    ensures o.Base().id == o.id
    ensures o.Equals(q) <==> o.id == q.id
    ensures o.Equals(q) <==> o.Hash() == q.Hash()
  {
  }

  /** Entities of different types are unequal even with the same id. */
  lemma DifferentEntitiesUnequal(u: User, p: Product, o: Order)
    ensures !u.Base().Equals(p.Base()) && !u.Base().Equals(o.Base()) && !p.Base().Equals(o.Base())
  {
  }

  /** A changed user equals the original and prints alike; the untouched field keeps its value. */
  lemma ChangesKeepIdentity(u: User, name: string, city: string)
    ensures u.ChangeName(name).Ok? && u.ChangeName(name).value.Equals(u)
    ensures u.ChangeName(name).value.city == u.city && u.ChangeName(name).value.Str() == u.Str()
    ensures u.ChangeCity(city).Ok? && u.ChangeCity(city).value.Equals(u)
    ensures u.ChangeCity(city).value.name == u.name && u.ChangeCity(city).value.Str() == u.Str()
  {
  }

  /** Two orders print alike exactly when they are equal. */
  lemma OrderStrInjective(o: Order, q: Order)
    ensures o.Str() == q.Str() <==> o.Equals(q)
  {
    StrInjective(o.Base(), q.Base());
  }

  /** An order built from products also built from the same ids in another order or repeated is the same order. */
  lemma ProductOrderIrrelevant(id: int, user: UserID, created: int, ps: seq<ProductID>, qs: seq<ProductID>)
    requires forall x :: x in ps <==> x in qs
    ensures NewOrder(id, user, created, ps) == NewOrder(id, user, created, qs)
  {
    forall x
      ensures x in SetOf(ps) <==> x in SetOf(qs)
    {
      assert x in SetOf(ps) <==> x in ps;
      assert x in SetOf(qs) <==> x in qs;
    }
    assert SetOf(ps) == SetOf(qs);
    assert |ps| > 0 <==> |qs| > 0 by {
      if |ps| > 0 { assert ps[0] in qs; }
      if |qs| > 0 { assert qs[0] in ps; }
    }
  }

  /** `remove_product` of an absent product raises `DomainError` naming it, as written and as intended. */
  lemma RemoveAbsentProduct(o: Order, p: ProductID)
    requires !o.HasProduct(p)
    ensures o.RemoveProductAsWritten(p) == Err(DomainError(p))
    ensures o.RemoveProduct(p) == Err(DomainError(p))
  {
  }

  /** As written, `remove_product` never returns an order: a present product raises `TypeError`. */
  lemma RemoveProductNeverSucceedsAsWritten(o: Order, p: ProductID)
    ensures o.RemoveProductAsWritten(p).Err?
    ensures o.HasProduct(p) ==> o.RemoveProductAsWritten(p) == Err(TypeError)
  {
  }

  /**
   * As intended, removing a present product keeps the id, user and creation time and
   * exactly the other products, and fails with `ValueError` only when it was the last.
   */
  lemma RemoveProductSpec(o: Order, p: ProductID)
    requires o.HasProduct(p)
    ensures var r := o.RemoveProduct(p);
            && (r.Ok? <==> o.products != {p})
            && (r.Err? ==> r.error == ValueError(EmptyProducts))
            && (r.Ok? ==> r.value.Equals(o) && r.value.user == o.user && r.value.created == o.created &&
                          !r.value.HasProduct(p) &&
                          forall x :: x != p ==> (r.value.HasProduct(x) <==> o.HasProduct(x)))
  {
    assert o.products - {p} == {} <==> o.products == {p};
  }

  /** The example order of the documentation, and its text form. */
  lemma OrderExample()
    ensures var r := NewOrder(21, 0, 1538444645, [2]);
            && r.Ok? && r.value.products == {2} && r.value.Str() == "Order(id=21)"
  {
    var o := NewOrder(21, 0, 1538444645, [2]).value;
    assert o.products == {2};
    assert NatToDecimal(21) == "21" by {
      assert NatToDecimal(2) == "2";
    }
  }

  /** Repeated product ids collapse into one; an empty list and a negative id are refused. */
  lemma ConstructorExamples()
    ensures NewOrder(1, 0, 0, [3, 2, 3]).Ok? && NewOrder(1, 0, 0, [3, 2, 3]).value.products == {2, 3}
    ensures NewOrder(1, 0, 0, []) == Err(ValueError(EmptyProducts))
    ensures NewOrder(-1, 0, 0, []) == Err(ValueError(NegativeIdentifier))
  {
    assert SetOf([3, 2, 3]) == {2, 3};
  }
}
