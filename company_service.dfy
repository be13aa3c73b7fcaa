/**
 * The company service layer: `OrderService.batch_insert`, which reads parsed
 * records one by one, saves each new user and each new product on the way,
 * collapses a record's products into order lines, refuses an order whose id is
 * already stored, and saves all orders in one bulk call at the end.
 *
 * The loop of the method is specified by `Ingest`, a function that replays the
 * same steps over the tables as values.
 */
module CompanyService {
  import opened Wrappers
  import opened Failures
  import opened Collections
  import opened CompanyDomain
  import opened CompanyStorage

  /** The `user` object of a record: `{"id", "name", "city"}`. */
  datatype UserRecord = UserRecord(id: int, name: string, city: string)

  /** One element of a record's `products` list: `{"id", "name", "price"}`. */
  datatype ProductRecord = ProductRecord(id: int, name: string, price: int)

  /** A parsed JSON line: the order id, its creation time, its user and its products. */
  datatype Record = Record(id: int, created: int, user: UserRecord, products: seq<ProductRecord>)

  // ---------------------------------------------------------------------------
  // Counter(products)
  // ---------------------------------------------------------------------------

  /** The identifiers of the products, in list order. */
  function IdsOf(products: seq<Product>): (ids: seq<ProductID>)
    ensures |ids| == |products|
    ensures forall k :: 0 <= k < |ids| ==> ids[k] == products[k].identifier
  {
    if products == [] then [] else [products[0].identifier] + IdsOf(products[1..])
  }

  /** One line per key: the key as product id and its count in `ids` as quantity. */
  function Tally(keys: seq<ProductID>, ids: seq<ProductID>): (ls: seq<OrderLine>)
    ensures |ls| == |keys|
    ensures forall k :: 0 <= k < |keys| ==> ls[k] == OrderLine(keys[k], Count(ids, keys[k]))
  {
    if keys == [] then [] else Tally(keys[..|keys| - 1], ids) + [OrderLine(keys[|keys| - 1], Count(ids, keys[|keys| - 1]))]
  }

  /**
   * `[OrderLine(product.identifier, quantity) for product, quantity in Counter(products).items()]`:
   * products are Counter keys by identity, that is by identifier, and the keys
   * come in the order they first appear.
   */
  function Collapse(ids: seq<ProductID>): seq<OrderLine> {
    Tally(Dedup(ids), ids)
  }

  // ---------------------------------------------------------------------------
  // The steps of batch_insert, over the tables as values
  // ---------------------------------------------------------------------------

  /** `if not exists(user): save(user)`. */
  function SaveUser(users: seq<UserRow>, u: User): seq<UserRow> {
    if u.identifier in UserIds(users) then users else users + [UserRowOf(u)]
  }

  /** `if not exists(product): save(product)`. */
  function SaveProduct(products: seq<ProductRow>, p: Product): seq<ProductRow> {
    if p.identifier in ProductIds(products) then products else products + [ProductRowOf(p)]
  }

  /** The inner loop's state: the `products` table, the products of the record so far, the error raised. */
  datatype Bought = Bought(products: seq<ProductRow>, bought: seq<Product>, failure: Option<Error>)

  /** The inner loop over a record's products, up to the first product that cannot be constructed. */
  function SaveProducts(table: seq<ProductRow>, prs: seq<ProductRecord>): Bought {
    if prs == [] then Bought(table, [], None)
    else
      var b := SaveProducts(table, prs[..|prs| - 1]);
      var pr := prs[|prs| - 1];
      if b.failure.Some? then b
      else match NewProduct(pr.id, pr.name, pr.price)
        case Err(e) => Bought(b.products, b.bought, Some(e))
        case Ok(p) => Bought(SaveProduct(b.products, p), b.bought + [p], None)
  }

  /**
   * The outer loop's state: the `users` and `products` tables, the orders
   * collected for the bulk save, and the error that ended the batch.
   */
  datatype Progress = Progress(users: seq<UserRow>, products: seq<ProductRow>, pending: seq<Order>, failure: Option<Error>)

  /** One record, against the `orders` table as it was before the batch. */
  function Step(p: Progress, rec: Record, orderTable: seq<OrderRow>): Progress {
    if p.failure.Some? then p
    else match NewUser(rec.user.id, rec.user.name, rec.user.city)
      case Err(e) => Progress(p.users, p.products, p.pending, Some(e))
      case Ok(u) =>
        var users := SaveUser(p.users, u);
        var b := SaveProducts(p.products, rec.products);
        if b.failure.Some? then Progress(users, b.products, p.pending, b.failure)
        else match NewOrder(rec.id, u.identifier, Collapse(IdsOf(b.bought)), rec.created)
          case Err(e) => Progress(users, b.products, p.pending, Some(e))
          case Ok(o) =>
            if o.identifier in OrderIds(orderTable) then Progress(users, b.products, p.pending, Some(ConflictError(o.identifier)))
            else Progress(users, b.products, p.pending + [o], None)
  }

  /** The records in order, up to the first that raises. */
  function Ingest(start: Progress, records: seq<Record>, orderTable: seq<OrderRow>): Progress {
    if records == [] then start
    else Step(Ingest(start, records[..|records| - 1], orderTable), records[|records| - 1], orderTable)
  }

  /** The state a batch starts in: the current tables, nothing pending, no error. */
  function Start(users: seq<UserRow>, products: seq<ProductRow>): Progress {
    Progress(users, products, [], None)
  }

  /** Once a product fails, the rest of the list is not looked at. */
  lemma {:induction false} SaveProductsStops(prs: seq<ProductRecord>, products: seq<ProductRow>, j: nat)
    requires j <= |prs| && SaveProducts(products, prs[..j]).failure.Some?
    ensures SaveProducts(products, prs) == SaveProducts(products, prs[..j])
    decreases |prs| - j
  {
    if j < |prs| {
      assert prs[..j + 1][..j] == prs[..j];
      SaveProductsStops(prs, products, j + 1);
    } else {
      assert prs[..j] == prs;
    }
  }

  /** Once a record fails, the rest of the batch is not looked at. */
  lemma {:induction false} IngestStops(start: Progress, records: seq<Record>, orderTable: seq<OrderRow>, i: nat)
    requires i <= |records| && Ingest(start, records[..i], orderTable).failure.Some?
    ensures Ingest(start, records, orderTable) == Ingest(start, records[..i], orderTable)
    decreases |records| - i
  {
    if i < |records| {
      assert records[..i + 1][..i] == records[..i];
      IngestStops(start, records, orderTable, i + 1);
    } else {
      assert records[..i] == records;
    }
  }

  // ---------------------------------------------------------------------------
  // The service object
  // ---------------------------------------------------------------------------

  class OrderService {
    const userRepository: UserRepository
    const orderRepository: OrderRepository
    const productRepository: ProductRepository

    constructor (userRepository: UserRepository, orderRepository: OrderRepository, productRepository: ProductRepository)
      ensures this.userRepository == userRepository
      ensures this.orderRepository == orderRepository
      ensures this.productRepository == productRepository
    {
      this.userRepository := userRepository;
      this.orderRepository := orderRepository;
      this.productRepository := productRepository;
    }

    /** The three repositories work on one connection, as the application wires them. */
    predicate Valid() {
      userRepository.db == orderRepository.db && productRepository.db == orderRepository.db
    }

    /**
     * `batch_insert(records)`: the tables end as `Ingest` says. On success the
     * collected orders are appended by one bulk save; on an error nothing of
     * the orders is saved, but the users and products saved before it stay.
     */
    method BatchInsert(records: seq<Record>) returns (outcome: Outcome<Error>)
      requires Valid()
      modifies orderRepository.db
      ensures var db := orderRepository.db;
              var run := Ingest(Start(old(db.users), old(db.products)), records, old(db.orders));
              && db.users == run.users && db.products == run.products
              && (outcome.Pass? <==> run.failure.None?)
              && (run.failure.Some? ==> outcome == Fail(run.failure.value) &&
                                        db.orders == old(db.orders) && db.orderLines == old(db.orderLines))
              && (run.failure.None? ==> db.orders == old(db.orders) + OrderRows(run.pending) &&
                                        db.orderLines == old(db.orderLines) + LineRows(run.pending))
    {
      var db := orderRepository.db;
      ghost var start := Start(db.users, db.products);
      ghost var table := db.orders;
      ghost var lineTable := db.orderLines;
      var pending: seq<Order> := [];
      var i := 0;
      while i < |records|
        invariant 0 <= i <= |records|
        invariant Ingest(start, records[..i], table) == Progress(db.users, db.products, pending, None)
        invariant db.orders == table && db.orderLines == lineTable
      {
        assert records[..i + 1][..i] == records[..i];
        var order := InsertRecord(records[i], pending);
        if order.Err? {
          IngestStops(start, records, table, i + 1);
          return Fail(order.error);
        }
        pending := pending + [order.value];
        i := i + 1;
      }
      assert records[..i] == records;
      // [4] The orders, as one batch.
      orderRepository.Save(pending);
      return Pass;
    }

    /**
     * The body of the loop over the records: saves the record's user and its
     * products when new and returns the order it makes, or the error raised.
     */
    method InsertRecord(rec: Record, ghost pending: seq<Order>) returns (order: Result<Order, Error>)
      requires Valid()
      modifies orderRepository.db
      ensures var db := orderRepository.db;
              var p := Step(Progress(old(db.users), old(db.products), pending, None), rec, old(db.orders));
              && db.users == p.users && db.products == p.products
              && db.orders == old(db.orders) && db.orderLines == old(db.orderLines)
              && (order.Ok? <==> p.failure.None?)
              && (order.Ok? ==> p.pending == pending + [order.value])
              && (order.Err? ==> p.failure == Some(order.error))
    {
      var db := orderRepository.db;
      ghost var users0 := db.users;
      // [1] The user, saved when new.
      var user := NewUser(rec.user.id, rec.user.name, rec.user.city);
      if user.Err? {
        return Err(user.error);
      }
      var u := user.value;
      if !userRepository.Exists(u.identifier) {
        userRepository.Save(u);
      }
      assert db.users == SaveUser(users0, u);
      // [2] The products, each saved when new.
      var bought, failure := SaveNewProducts(rec.products);
      if failure.Some? {
        return Err(failure.value);
      }
      // [3] The order, refused when its id is stored already.
      order := NewOrder(rec.id, u.identifier, Collapse(IdsOf(bought)), rec.created);
      if order.Ok? && orderRepository.Exists(order.value.identifier) {
        order := Err(ConflictError(order.value.identifier));
      }
    }

    /** The loop over a record's products: each is saved when new and collected. */
    method SaveNewProducts(prs: seq<ProductRecord>) returns (bought: seq<Product>, failure: Option<Error>)
      requires Valid()
      modifies orderRepository.db
      ensures var db := orderRepository.db;
              && SaveProducts(old(db.products), prs) == Bought(db.products, bought, failure)
              && db.users == old(db.users) && db.orders == old(db.orders) && db.orderLines == old(db.orderLines)
    {
      var db := orderRepository.db;
      ghost var products0 := db.products;
      bought := [];
      var j := 0;
      while j < |prs|
        invariant 0 <= j <= |prs|
        invariant SaveProducts(products0, prs[..j]) == Bought(db.products, bought, None)
        invariant db.users == old(db.users) && db.orders == old(db.orders) && db.orderLines == old(db.orderLines)
      {
        assert prs[..j + 1][..j] == prs[..j];
        var pr := prs[j];
        var product := NewProduct(pr.id, pr.name, pr.price);
        if product.Err? {
          SaveProductsStops(prs, products0, j + 1);
          return bought, Some(product.error);
        }
        var p := product.value;
        if !productRepository.Exists(p.identifier) {
          productRepository.Save(p);
        }
        bought := bought + [p];
        j := j + 1;
      }
      assert prs[..j] == prs;
      failure := None;
    }
  }
}
