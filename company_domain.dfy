/** The company domain: users, products, order lines and orders. */
module CompanyDomain {
  import opened Wrappers
  import opened Failures
  import opened Collections
  import opened CompanyShared

  type UserID = int
  type ProductID = int
  type OrderID = int

  /** A customer. Immutable; the identifier is never negative once constructed. */
  datatype User = User(identifier: nat, name: string, city: string)
  {
    /** The entity base of this user. */
    function Base(): Entity<int> { Entity("User", identifier) }

    /** `self == other` for two users. */
    predicate Equals(other: User) { Base().Equals(other.Base()) }

    /** `hash(self)`. */
    function Hash(): (string, int) { Base().Hash() }

    /** `change_name`: a new user with this identifier and city and the given name. */
    function ChangeName(name: string): (u: User)
      ensures NewUser(identifier, name, city) == Ok(u)
      ensures u.identifier == identifier && u.name == name && u.city == city
    {
      User(identifier, name, city)
    }

    /** `change_city`: a new user with this identifier and name and the given city. */
    function ChangeCity(city: string): (u: User)
      ensures NewUser(identifier, name, city) == Ok(u)
      ensures u.identifier == identifier && u.name == name && u.city == city
    {
      User(identifier, name, city)
    }
  }

  /** `User(identifier, name, city)`: `ValueError` for a negative identifier, 0 allowed. */
  function NewUser(identifier: int, name: string, city: string): (r: Result<User, Error>)
    ensures r.Ok? <==> identifier >= 0
    ensures r.Err? ==> r.error == ValueError(NegativeIdentifier)
    ensures r.Ok? ==> r.value.identifier == identifier && r.value.name == name && r.value.city == city
  {
    if identifier < 0 then Err(ValueError(NegativeIdentifier)) else Ok(User(identifier, name, city))
  }

  /** A product; the price is an exact integer. */
  datatype Product = Product(identifier: nat, name: string, price: int)
  {
    function Base(): Entity<int> { Entity("Product", identifier) }
    predicate Equals(other: Product) { Base().Equals(other.Base()) }
    function Hash(): (string, int) { Base().Hash() }
  }

  /** `Product(identifier, name, price)`: `ValueError` for a negative identifier. */
  function NewProduct(identifier: int, name: string, price: int): (r: Result<Product, Error>)
    ensures r.Ok? <==> identifier >= 0
    ensures r.Err? ==> r.error == ValueError(NegativeIdentifier)
    ensures r.Ok? ==> r.value.identifier == identifier && r.value.name == name && r.value.price == price
  {
    if identifier < 0 then Err(ValueError(NegativeIdentifier)) else Ok(Product(identifier, name, price))
  }

  /** A frozen dataclass value: equal exactly when both fields are equal; quantity defaults to 1. */
  datatype OrderLine = OrderLine(productId: ProductID, quantity: int := 1)

  /**
   * An order. `lines` stands for the frozenset of order lines: it holds each line
   * once, in the order the lines were first given; only its set `LineSet()` is
   * observable, since the iteration order of a frozenset is not specified.
   */
  datatype Order = Order(identifier: nat, userId: UserID, created: int, lines: seq<OrderLine>)
  {
    function Base(): Entity<int> { Entity("Order", identifier) }
    predicate Equals(other: Order) { Base().Equals(other.Base()) }
    function Hash(): (string, int) { Base().Hash() }

    /** The frozenset of order lines. */
    function LineSet(): set<OrderLine> { set l | l in lines }

    /** What every constructed order satisfies. */
    predicate Valid() {
      Distinct(lines) && forall l :: l in lines ==> l.quantity > 0
    }
  }

  /** The set of a sequence of order lines. */
  function SetOf(ls: seq<OrderLine>): set<OrderLine> { set l | l in ls }

  /**
   * `Order(identifier, user_id, order_lines, created)` as intended: `ValueError` for a
   * negative identifier, and `ValueError` when a line has a quantity of zero or less;
   * otherwise the lines are frozen into a set.
   */
  function NewOrder(identifier: int, userId: UserID, orderLines: seq<OrderLine>, created: int): (r: Result<Order, Error>)
    ensures r.Ok? <==> identifier >= 0 && forall l :: l in orderLines ==> l.quantity > 0
    ensures identifier < 0 ==> r == Err(ValueError(NegativeIdentifier))
    ensures r.Err? && identifier >= 0 ==> r.error == ValueError(NonPositiveQuantity)
    ensures r.Ok? ==> r.value.Valid()
    ensures r.Ok? ==> && r.value.identifier == identifier && r.value.userId == userId
                      && r.value.created == created && r.value.LineSet() == SetOf(orderLines)
  {
    if identifier < 0 then Err(ValueError(NegativeIdentifier))
    else if exists l :: l in orderLines && l.quantity <= 0 then Err(ValueError(NonPositiveQuantity))
    else Ok(Order(identifier, userId, created, Dedup(orderLines)))
  }

  /**
   * `Order(identifier, user_id, order_lines, created)` as the source writes it: only
   * the identifier is checked.
   */
  function NewOrderAsWritten(identifier: int, userId: UserID, orderLines: seq<OrderLine>, created: int): (r: Result<Order, Error>)
    ensures r.Ok? <==> identifier >= 0
    ensures r.Ok? ==> r.value.LineSet() == SetOf(orderLines)
  {
    if identifier < 0 then Err(ValueError(NegativeIdentifier))
    else Ok(Order(identifier, userId, created, Dedup(orderLines)))
  }

  /** A line with quantity zero is accepted as written, and refused as intended. */
  lemma ZeroQuantityAcceptedAsWritten()
    ensures NewOrderAsWritten(1, 1, [OrderLine(1, 0)], 0).Ok?
    ensures NewOrder(1, 1, [OrderLine(1, 0)], 0) == Err(ValueError(NonPositiveQuantity))
    ensures NewOrder(1, 1, [OrderLine(1, -1)], 0) == Err(ValueError(NonPositiveQuantity))
  {
    assert OrderLine(1, 0) in [OrderLine(1, 0)];
    assert OrderLine(1, -1) in [OrderLine(1, -1)];
  }

  /** The identity law: users with one identifier are equal and hash equal, whatever their fields. */
  lemma UserIdentity(a: User, b: User)
    ensures a.Equals(b) <==> a.identifier == b.identifier
    ensures a.Equals(b) ==> a.Hash() == b.Hash()
  {
  }

  lemma ProductIdentity(a: Product, b: Product)
    ensures a.Equals(b) <==> a.identifier == b.identifier
    ensures a.Equals(b) ==> a.Hash() == b.Hash()
  {
  }

  /** Order identity ignores the user, the creation time and the lines. */
  lemma OrderIdentity(a: Order, b: Order)
    ensures a.Equals(b) <==> a.identifier == b.identifier
    ensures a.Equals(b) ==> a.Hash() == b.Hash()
  {
  }

  /** A user, a product and an order are never equal to one another. */
  lemma DifferentEntitiesUnequal(u: User, p: Product, o: Order)
    ensures !u.Base().Equals(p.Base()) && !p.Base().Equals(o.Base()) && !o.Base().Equals(u.Base())
  {
  }

  /** Renaming or moving a user keeps it equal to the original. */
  lemma ChangesKeepIdentity(u: User, name: string, city: string)
    ensures u.ChangeName(name).Equals(u) && u.ChangeName(name).Hash() == u.Hash()
    ensures u.ChangeCity(city).Equals(u) && u.ChangeCity(city).Hash() == u.Hash()
  {
  }

  /** The concrete cases of the project's domain tests. */
  lemma DomainExamples()
    ensures NewUser(1, "name1", "city1").value.Equals(NewUser(1, "name2", "city2").value)
    ensures !NewUser(1, "name", "city").value.Equals(NewUser(2, "name", "city").value)
    ensures NewProduct(1, "name1", 2).value.Equals(NewProduct(1, "name1", 2).value)
    ensures NewUser(-1, "name", "city") == Err(ValueError(NegativeIdentifier))
    ensures NewProduct(-1, "name", 1) == Err(ValueError(NegativeIdentifier))
    ensures NewOrder(-1, 1, [], 0) == Err(ValueError(NegativeIdentifier))
    ensures NewUser(0, "", "").Ok? && OrderLine(7).quantity == 1
  {
  }

  /** The order of the given lines does not matter; only their set does. */
  lemma LineOrderIrrelevant(identifier: int, userId: UserID, a: seq<OrderLine>, b: seq<OrderLine>, created: int)
    requires SetOf(a) == SetOf(b)
    ensures NewOrder(identifier, userId, a, created).Ok? == NewOrder(identifier, userId, b, created).Ok?
    ensures NewOrder(identifier, userId, a, created).Ok? ==>
              NewOrder(identifier, userId, a, created).value.LineSet() == NewOrder(identifier, userId, b, created).value.LineSet()
  {
    assert forall l :: l in a <==> l in SetOf(a);
    assert forall l :: l in b <==> l in SetOf(b);
  }

  /** Identical lines collapse into one; lines for one product with different quantities are both kept. */
  lemma LineSetExamples(l: OrderLine, p: ProductID)
    requires l.quantity > 0
    ensures NewOrder(1, 1, [l, l], 0).value.lines == [l]
    ensures |NewOrder(1, 1, [OrderLine(p, 1), OrderLine(p, 2)], 0).value.LineSet()| == 2
  {
    assert Dedup([l]) == [l];
    assert [l, l][..1] == [l];
    var two := [OrderLine(p, 1), OrderLine(p, 2)];
    assert two[..1] == [OrderLine(p, 1)];
    assert Dedup([OrderLine(p, 1)]) == [OrderLine(p, 1)];
    assert SetOf(two) == {OrderLine(p, 1), OrderLine(p, 2)};
  }
}
