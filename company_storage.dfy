/**
 * The company persistence layer. The sqlite connection is replaced by an in-memory
 * database holding the four tables as sequences of rows, in insertion order.
 */
module CompanyStorage {
  import opened Wrappers
  import opened Failures
  import opened Collections
  import opened CompanyCommon
  import opened CompanyDomain

  datatype UserRow = UserRow(id: int, name: string, city: string)
  datatype ProductRow = ProductRow(id: int, name: string, price: int)
  datatype OrderRow = OrderRow(id: int, userId: int, created: int)
  datatype LineRow = LineRow(orderId: int, productId: int, quantity: int)

  function UserIds(rows: seq<UserRow>): set<int> { set r | r in rows :: r.id }
  function ProductIds(rows: seq<ProductRow>): set<int> { set r | r in rows :: r.id }
  function OrderIds(rows: seq<OrderRow>): set<int> { set r | r in rows :: r.id }

  /** The row `UserRepository.save` inserts: `(identifier, name, city)`. */
  function UserRowOf(u: User): UserRow { UserRow(u.identifier, u.name, u.city) }

  /** The row `ProductRepository.save` inserts: `(identifier, name, price)`. */
  function ProductRowOf(p: Product): ProductRow { ProductRow(p.identifier, p.name, p.price) }

  /** The `orders` row of one order: `(identifier, user_id, created)`. */
  function OrderRowOf(o: Order): OrderRow { OrderRow(o.identifier, o.userId, o.created) }

  /** The `orders` rows of a bulk save: one per order, in argument order. */
  function OrderRows(aggregates: seq<Order>): (rows: seq<OrderRow>)
    ensures |rows| == |aggregates|
    ensures forall k :: 0 <= k < |rows| ==> rows[k] == OrderRowOf(aggregates[k])
  {
    if aggregates == [] then [] else [OrderRowOf(aggregates[0])] + OrderRows(aggregates[1..])
  }

  /** The `order_lines` rows of one order: `(order.identifier, product_id, quantity)` per line. */
  function LineRowsOf(o: Order, ls: seq<OrderLine>): (rows: seq<LineRow>)
    ensures |rows| == |ls|
    ensures forall k :: 0 <= k < |rows| ==> rows[k] == LineRow(o.identifier, ls[k].productId, ls[k].quantity)
  {
    if ls == [] then [] else [LineRow(o.identifier, ls[0].productId, ls[0].quantity)] + LineRowsOf(o, ls[1..])
  }

  /** The nested list of line rows, one inner list per order. */
  function LineRowsPerOrder(aggregates: seq<Order>): (xss: seq<seq<LineRow>>)
    ensures |xss| == |aggregates|
    ensures forall k :: 0 <= k < |xss| ==> xss[k] == LineRowsOf(aggregates[k], aggregates[k].lines)
  {
    if aggregates == [] then []
    else [LineRowsOf(aggregates[0], aggregates[0].lines)] + LineRowsPerOrder(aggregates[1..])
  }

  /** The `order_lines` rows of a bulk save: the flattened per-order lists. */
  function LineRows(aggregates: seq<Order>): seq<LineRow> {
    Flatten(LineRowsPerOrder(aggregates))
  }

  /** The number of lines of all the orders. */
  function TotalLines(aggregates: seq<Order>): nat {
    if aggregates == [] then 0 else |aggregates[0].lines| + TotalLines(aggregates[1..])
  }

  /** A store of the four tables, standing for the sqlite connection. */
  class Database {
    var users: seq<UserRow>
    var products: seq<ProductRow>
    var orders: seq<OrderRow>
    var orderLines: seq<LineRow>

    /** A freshly created schema: four empty tables. */
    constructor ()
      ensures users == [] && products == [] && orders == [] && orderLines == []
    {
      users, products, orders, orderLines := [], [], [], [];
    }
  }

  class UserRepository {
    const db: Database

    constructor (connection: Database)
      ensures db == connection
    {
      db := connection;
    }

    /** `save`: appends one `users` row; the other tables are untouched. */
    method Save(aggregate: User)
      modifies db
      ensures db.users == old(db.users) + [UserRowOf(aggregate)]
      ensures db.products == old(db.products) && db.orders == old(db.orders) && db.orderLines == old(db.orderLines)
      ensures Exists(aggregate.identifier)
    {
      db.users := db.users + [UserRowOf(aggregate)];
    }

    /** `exists`: a point query on the primary key. */
    function Exists(aggregateId: UserID): (found: bool)
      reads db
      ensures found <==> exists i :: 0 <= i < |db.users| && db.users[i].id == aggregateId
    {
      aggregateId in UserIds(db.users)
    }
  }

  class ProductRepository {
    const db: Database

    constructor (connection: Database)
      ensures db == connection
    {
      db := connection;
    }

    /** `save`: appends one `products` row; the other tables are untouched. */
    method Save(aggregate: Product)
      modifies db
      ensures db.products == old(db.products) + [ProductRowOf(aggregate)]
      ensures db.users == old(db.users) && db.orders == old(db.orders) && db.orderLines == old(db.orderLines)
      ensures Exists(aggregate.identifier)
    {
      db.products := db.products + [ProductRowOf(aggregate)];
    }

    /** `exists`: a point query on the primary key. */
    function Exists(aggregateId: ProductID): (found: bool)
      reads db
      ensures found <==> exists i :: 0 <= i < |db.products| && db.products[i].id == aggregateId
    {
      aggregateId in ProductIds(db.products)
    }
  }

  class OrderRepository {
    const db: Database

    constructor (connection: Database)
      ensures db == connection
    {
      db := connection;
    }

    /**
     * `save(*aggregates)`: one `orders` row per order in argument order, then one
     * `order_lines` row per (order, line), grouped order by order.
     */
    method Save(aggregates: seq<Order>)
      modifies db
      ensures db.orders == old(db.orders) + OrderRows(aggregates)
      ensures db.orderLines == old(db.orderLines) + LineRows(aggregates)
      ensures db.users == old(db.users) && db.products == old(db.products)
    {
      db.orders := db.orders + OrderRows(aggregates);
      db.orderLines := db.orderLines + LineRows(aggregates);
    }

    /** `exists`: a point query on the primary key. */
    function Exists(aggregateId: OrderID): (found: bool)
      reads db
      ensures found <==> exists i :: 0 <= i < |db.orders| && db.orders[i].id == aggregateId
    {
      aggregateId in OrderIds(db.orders)
    }

    /** `find_between(since, till)` over the current tables. */
    function FindBetween(since: int, till: int): (r: Result<seq<Order>, Error>)
      reads db
      ensures r.Ok? ==> forall o :: o in r.value ==> since <= o.created <= till
      ensures r.Ok? ==> forall i, j :: 0 <= i < j < |r.value| ==> r.value[i].identifier <= r.value[j].identifier
    {
      FindBetweenInRange(db.orders, db.orderLines, since, till);
      FindBetweenAscending(db.orders, db.orderLines, since, till);
      FindBetweenRows(db.orders, db.orderLines, since, till)
    }
  }

  // ---------------------------------------------------------------------------
  // Bulk save
  // ---------------------------------------------------------------------------

  /** The line rows of a bulk save number as many as the orders' lines together. */
  lemma {:induction false} LineRowsCount(aggregates: seq<Order>)
    ensures |LineRows(aggregates)| == TotalLines(aggregates)
  {
    FlattenLength(LineRowsPerOrder(aggregates));
    SumLengthsPerOrder(aggregates);
  }

  lemma {:induction false} SumLengthsPerOrder(aggregates: seq<Order>)
    ensures SumLengths(LineRowsPerOrder(aggregates)) == TotalLines(aggregates)
  {
    if aggregates != [] {
      SumLengthsPerOrder(aggregates[1..]);
      assert LineRowsPerOrder(aggregates)[1..] == LineRowsPerOrder(aggregates[1..]);
    }
  }

  /** The line rows of a bulk save are the per-order lists laid end to end. */
  lemma {:induction false} LineRowsAppend(a: seq<Order>, b: seq<Order>)
    ensures LineRows(a + b) == LineRows(a) + LineRows(b)
  {
    PerOrderAppend(a, b);
    FlattenAppend(LineRowsPerOrder(a), LineRowsPerOrder(b));
  }

  lemma {:induction false} PerOrderAppend(a: seq<Order>, b: seq<Order>)
    ensures LineRowsPerOrder(a + b) == LineRowsPerOrder(a) + LineRowsPerOrder(b)
  {
    if a == [] {
      assert a + b == b;
    } else {
      assert (a + b)[1..] == a[1..] + b;
      PerOrderAppend(a[1..], b);
    }
  }

  /** A row is among the line rows of a bulk save iff it is the row of a line of one of the orders. */
  lemma LineRowsMember(aggregates: seq<Order>, r: LineRow)
    ensures r in LineRows(aggregates) <==>
              exists k, l :: 0 <= k < |aggregates| && l in aggregates[k].lines &&
                             r == LineRow(aggregates[k].identifier, l.productId, l.quantity)
  {
    var xss := LineRowsPerOrder(aggregates);
    FlattenMember(xss, r);
    if r in LineRows(aggregates) {
      var k :| 0 <= k < |xss| && r in xss[k];
      var i :| 0 <= i < |xss[k]| && xss[k][i] == r;
      assert aggregates[k].lines[i] in aggregates[k].lines;
    }
    if exists k, l :: 0 <= k < |aggregates| && l in aggregates[k].lines &&
                      r == LineRow(aggregates[k].identifier, l.productId, l.quantity) {
      var k, l :| 0 <= k < |aggregates| && l in aggregates[k].lines &&
                  r == LineRow(aggregates[k].identifier, l.productId, l.quantity);
      var i :| 0 <= i < |aggregates[k].lines| && aggregates[k].lines[i] == l;
      assert xss[k][i] == r;
    }
  }

  // ---------------------------------------------------------------------------
  // find_between: join, order by id, group adjacent rows, build orders
  // ---------------------------------------------------------------------------

  /** A row of the join: `(o.id, o.created, o.user_id, l.product_id, l.quantity)`. */
  datatype Joined = Joined(orderId: int, created: int, userId: int, productId: int, quantity: int)

  function JoinRow(o: OrderRow, l: LineRow): Joined {
    Joined(o.id, o.created, o.userId, l.productId, l.quantity)
  }

  /** SQL `x between since and till`: inclusive at both ends. */
  predicate Between(x: int, since: int, till: int) { since <= x <= till }

  /** The joined rows of one order row, in `order_lines` table order. */
  function MatchLines(o: OrderRow, lines: seq<LineRow>): seq<Joined> {
    if lines == [] then []
    else (if lines[0].orderId == o.id then [JoinRow(o, lines[0])] else []) + MatchLines(o, lines[1..])
  }

  /**
   * The inner join `orders o join order_lines l on o.id = l.order_id and o.created
   * between since and till`, enumerated order row by order row.
   */
  function Join(orders: seq<OrderRow>, lines: seq<LineRow>, since: int, till: int): seq<Joined> {
    if orders == [] then []
    else (if Between(orders[0].created, since, till) then MatchLines(orders[0], lines) else [])
         + Join(orders[1..], lines, since, till)
  }

  predicate SortedById(s: seq<Joined>) {
    forall i, j :: 0 <= i < j < |s| ==> s[i].orderId <= s[j].orderId
  }

  function InsertById(x: Joined, s: seq<Joined>): (r: seq<Joined>)
    requires SortedById(s)
    ensures SortedById(r)
    ensures multiset(r) == multiset(s) + multiset{x}
    ensures forall j :: j in r ==> j == x || j in s
  {
    if s == [] then [x]
    else
      SortedSplit(s);
      if x.orderId <= s[0].orderId then
        InsertFront(x, s);
        [x] + s
      else
        var t := InsertById(x, s[1..]);
        InsertBehind(x, s, t);
        [s[0]] + t
  }

  /** A row with an id no larger than the head's goes in front. */
  lemma InsertFront(x: Joined, s: seq<Joined>)
    requires s != [] && SortedById(s) && x.orderId <= s[0].orderId
    requires forall j :: j in s ==> s[0].orderId <= j.orderId
    ensures SortedById([x] + s)
  {
    SortedCons(x, s);
  }

  /** A row with a larger id than the head's goes behind it, into the tail. */
  lemma InsertBehind(x: Joined, s: seq<Joined>, t: seq<Joined>)
    requires s != [] && s[0].orderId < x.orderId
    requires forall j :: j in s[1..] ==> s[0].orderId <= j.orderId
    requires SortedById(t) && multiset(t) == multiset(s[1..]) + multiset{x}
    requires forall j :: j in t ==> j == x || j in s[1..]
    ensures SortedById([s[0]] + t)
    ensures multiset([s[0]] + t) == multiset(s) + multiset{x}
    ensures forall j :: j in [s[0]] + t ==> j == x || j in s
  {
    assert s == [s[0]] + s[1..];
    assert forall j :: j in t ==> s[0].orderId <= j.orderId;
    SortedCons(s[0], t);
  }

  /** The head of a sorted list has the least id, and the tail is sorted. */
  lemma SortedSplit(s: seq<Joined>)
    requires s != [] && SortedById(s)
    ensures SortedById(s[1..])
    ensures forall j :: j in s ==> s[0].orderId <= j.orderId
    ensures forall j :: j in s[1..] ==> s[0].orderId <= j.orderId
  {
    var t := s[1..];
    forall i, j | 0 <= i < j < |t|
      ensures t[i].orderId <= t[j].orderId
    {
      assert t[i] == s[i + 1] && t[j] == s[j + 1];
    }
  }

  lemma SortedCons(h: Joined, t: seq<Joined>)
    requires SortedById(t)
    requires forall j :: j in t ==> h.orderId <= j.orderId
    ensures SortedById([h] + t)
  {
    var r := [h] + t;
    forall i, j | 0 <= i < j < |r|
      ensures r[i].orderId <= r[j].orderId
    {
      assert r[j] == t[j - 1];
      if i > 0 { assert r[i] == t[i - 1]; }
    }
  }

  /** `order by o.id`: a stable insertion sort on the order id. */
  function SortById(s: seq<Joined>): (r: seq<Joined>)
    ensures SortedById(r)
    ensures multiset(r) == multiset(s)
  {
    if s == [] then []
    else
      assert s == [s[0]] + s[1..];
      InsertById(s[0], SortById(s[1..]))
  }

  /** The `groupby` key `(x[0], x[1], x[2])`: order id, created, user id. */
  datatype Key = Key(id: int, created: int, userId: int)

  function KeyOf(j: Joined): Key { Key(j.orderId, j.created, j.userId) }

  datatype Group = Group(key: Key, items: seq<Joined>)

  /** The rows of the groups laid end to end. */
  function Ungroup(gs: seq<Group>): seq<Joined> {
    if gs == [] then [] else gs[0].items + Ungroup(gs[1..])
  }

  /**
   * `gs` groups `s`: laid end to end the groups are `s`, no group is empty,
   * every row of a group has the group's key, neighbouring groups have
   * different keys, and the first group has the first row's key.
   */
  predicate Grouped(s: seq<Joined>, gs: seq<Group>) {
    && Ungroup(gs) == s
    && (forall k :: 0 <= k < |gs| ==> gs[k].items != [])
    && (forall k, x :: 0 <= k < |gs| && x in gs[k].items ==> KeyOf(x) == gs[k].key)
    && (forall i :: 0 <= i < |gs| - 1 ==> gs[i].key != gs[i + 1].key)
    && (s != [] ==> gs != [] && gs[0].key == KeyOf(s[0]))
  }

  /** A row with the key of the first group joins that group. */
  lemma GroupedJoin(x: Joined, t: seq<Joined>, rest: seq<Group>)
    requires Grouped(t, rest) && rest != [] && rest[0].key == KeyOf(x)
    ensures Grouped([x] + t, [Group(rest[0].key, [x] + rest[0].items)] + rest[1..])
  {
    var g := Group(rest[0].key, [x] + rest[0].items);
    var gs := [g] + rest[1..];
    assert Ungroup(rest) == rest[0].items + Ungroup(rest[1..]);
    assert gs[1..] == rest[1..];
    forall k | 1 <= k < |gs|
      ensures gs[k] == rest[k]
    {
    }
  }

  /** A row with another key than the first group's opens a group of its own. */
  lemma GroupedOpen(x: Joined, t: seq<Joined>, rest: seq<Group>)
    requires Grouped(t, rest) && (rest == [] || rest[0].key != KeyOf(x))
    ensures Grouped([x] + t, [Group(KeyOf(x), [x])] + rest)
  {
    var gs := [Group(KeyOf(x), [x])] + rest;
    assert gs[1..] == rest;
    forall k | 1 <= k < |gs|
      ensures gs[k] == rest[k - 1]
    {
    }
  }

  /** `itertools.groupby(rows, key)`: maximal runs of adjacent rows with equal keys. */
  function GroupByKey(s: seq<Joined>): (gs: seq<Group>)
    ensures Grouped(s, gs)
  {
    if s == [] then []
    else
      var rest := GroupByKey(s[1..]);
      assert s == [s[0]] + s[1..];
      if rest != [] && rest[0].key == KeyOf(s[0]) then
        GroupedJoin(s[0], s[1..], rest);
        [Group(rest[0].key, [s[0]] + rest[0].items)] + rest[1..]
      else
        GroupedOpen(s[0], s[1..], rest);
        [Group(KeyOf(s[0]), [s[0]])] + rest
  }

  /** The order lines of a group: `OrderLine(product_id=item[-2], quantity=item[-1])`. */
  function LinesOfGroup(items: seq<Joined>): (ls: seq<OrderLine>)
    ensures |ls| == |items|
    ensures forall i :: 0 <= i < |items| ==> ls[i] == OrderLine(items[i].productId, items[i].quantity)
  {
    if items == [] then [] else [OrderLine(items[0].productId, items[0].quantity)] + LinesOfGroup(items[1..])
  }

  /** The order one group becomes. */
  function BuildOrder(g: Group): (r: Result<Order, Error>)
    ensures r.Ok? <==> g.key.id >= 0 && forall x :: x in g.items ==> x.quantity > 0
    ensures r.Ok? ==> && r.value.identifier == g.key.id && r.value.userId == g.key.userId
                      && r.value.created == g.key.created
  {
    var ls := LinesOfGroup(g.items);
    assert (forall l :: l in ls ==> l.quantity > 0) <==> (forall x :: x in g.items ==> x.quantity > 0) by {
      if forall l :: l in ls ==> l.quantity > 0 {
        forall x | x in g.items
          ensures x.quantity > 0
        {
          var i :| 0 <= i < |g.items| && g.items[i] == x;
          assert ls[i] in ls;
        }
      }
      if forall x :: x in g.items ==> x.quantity > 0 {
        forall l | l in ls
          ensures l.quantity > 0
        {
          var i :| 0 <= i < |ls| && ls[i] == l;
          assert g.items[i] in g.items;
        }
      }
    }
    NewOrder(g.key.id, g.key.userId, ls, g.key.created)
  }

  /**
   * The orders the generator yields, in group order; the first group whose
   * construction raises ends the iteration with that exception.
   */
  function BuildOrders(gs: seq<Group>): (r: Result<seq<Order>, Error>)
    ensures r.Ok? <==> forall k :: 0 <= k < |gs| ==> BuildOrder(gs[k]).Ok?
    ensures r.Ok? ==> |r.value| == |gs| && forall k :: 0 <= k < |gs| ==> BuildOrder(gs[k]) == Ok(r.value[k])
    ensures r.Err? ==> exists k :: 0 <= k < |gs| && BuildOrder(gs[k]) == Err(r.error) &&
                                   forall m :: 0 <= m < k ==> BuildOrder(gs[m]).Ok?
  {
    if gs == [] then Ok([])
    else match BuildOrder(gs[0])
      case Err(e) => Err(e)
      case Ok(o) =>
        match BuildOrders(gs[1..])
        case Err(e) =>
          FirstErrorShifts(gs, e);
          Err(e)
        case Ok(os) =>
          AllBuiltShift(gs, o, os);
          Ok([o] + os)
  }

  /** Built orders for the head and for the tail make built orders for the whole list. */
  lemma AllBuiltShift(gs: seq<Group>, o: Order, os: seq<Order>)
    requires gs != [] && BuildOrder(gs[0]) == Ok(o)
    requires |os| == |gs| - 1 && forall k :: 0 <= k < |gs[1..]| ==> BuildOrder(gs[1..][k]) == Ok(os[k])
    ensures |[o] + os| == |gs| && forall k :: 0 <= k < |gs| ==> BuildOrder(gs[k]) == Ok(([o] + os)[k])
  {
    forall k | 0 <= k < |gs|
      ensures BuildOrder(gs[k]) == Ok(([o] + os)[k])
    {
      if k > 0 {
        assert gs[k] == gs[1..][k - 1] && ([o] + os)[k] == os[k - 1];
      }
    }
  }

  /** The first failing group of the tail is the first failing group of the whole list. */
  lemma FirstErrorShifts(gs: seq<Group>, e: Error)
    requires gs != [] && BuildOrder(gs[0]).Ok?
    requires exists k :: 0 <= k < |gs[1..]| && BuildOrder(gs[1..][k]) == Err(e) &&
                         forall m :: 0 <= m < k ==> BuildOrder(gs[1..][m]).Ok?
    ensures exists k :: 0 <= k < |gs| && BuildOrder(gs[k]) == Err(e) &&
                        forall m :: 0 <= m < k ==> BuildOrder(gs[m]).Ok?
  {
    var k :| 0 <= k < |gs[1..]| && BuildOrder(gs[1..][k]) == Err(e) &&
             forall m :: 0 <= m < k ==> BuildOrder(gs[1..][m]).Ok?;
    assert gs[k + 1] == gs[1..][k];
    forall m | 0 <= m < k + 1
      ensures BuildOrder(gs[m]).Ok?
    {
      if m > 0 {
        assert gs[m] == gs[1..][m - 1];
      }
    }
  }

  /** The groups `find_between` folds into orders. */
  function Groups(orders: seq<OrderRow>, lines: seq<LineRow>, since: int, till: int): seq<Group> {
    GroupByKey(SortById(Join(orders, lines, since, till)))
  }

  /** `find_between(since, till)` over the `orders` and `order_lines` tables. */
  function FindBetweenRows(orders: seq<OrderRow>, lines: seq<LineRow>, since: int, till: int): Result<seq<Order>, Error> {
    BuildOrders(Groups(orders, lines, since, till))
  }

  // ---------------------------------------------------------------------------
  // What find_between promises
  // ---------------------------------------------------------------------------

  /** No two `orders` rows share an id (what the primary key of the table stands for). */
  predicate DistinctOrderIds(orders: seq<OrderRow>) {
    forall i, j :: 0 <= i < j < |orders| ==> orders[i].id != orders[j].id
  }

  /** Among the rows, the order id determines the whole groupby key. */
  predicate KeyById(s: seq<Joined>) {
    forall x, y :: x in s && y in s && x.orderId == y.orderId ==> KeyOf(x) == KeyOf(y)
  }

  /** The order lines stored for one order id, as the join reads them back. */
  function LinesFor(lines: seq<LineRow>, orderId: int): set<OrderLine> {
    set l | l in lines && l.orderId == orderId :: OrderLine(l.productId, l.quantity)
  }

  lemma {:induction false} MatchLinesMember(o: OrderRow, lines: seq<LineRow>, j: Joined)
    ensures j in MatchLines(o, lines) <==> exists l :: l in lines && l.orderId == o.id && j == JoinRow(o, l)
  {
    if lines != [] {
      MatchLinesMember(o, lines[1..], j);
      assert forall l :: l in lines <==> l == lines[0] || l in lines[1..];
    }
  }

  /** A row is in the join iff it joins an order row in range with one of its line rows. */
  lemma {:induction false} JoinMember(orders: seq<OrderRow>, lines: seq<LineRow>, since: int, till: int, j: Joined)
    ensures j in Join(orders, lines, since, till) <==>
              exists o, l :: o in orders && l in lines && Between(o.created, since, till) &&
                             l.orderId == o.id && j == JoinRow(o, l)
  {
    if orders != [] {
      JoinMember(orders[1..], lines, since, till, j);
      MatchLinesMember(orders[0], lines, j);
      assert forall o :: o in orders <==> o == orders[0] || o in orders[1..];
    }
  }

  /** A row of the sorted join comes from an order row in range and one of its line rows. */
  lemma JoinSource(orders: seq<OrderRow>, lines: seq<LineRow>, since: int, till: int, j: Joined)
    requires j in SortById(Join(orders, lines, since, till))
    ensures Between(j.created, since, till)
    ensures OrderRow(j.orderId, j.userId, j.created) in orders
    ensures LineRow(j.orderId, j.productId, j.quantity) in lines
  {
    var s := Join(orders, lines, since, till);
    assert j in multiset(SortById(s));
    JoinMember(orders, lines, since, till, j);
  }

  /** An order row in range joined with one of its line rows is in the sorted join. */
  lemma JoinContains(orders: seq<OrderRow>, lines: seq<LineRow>, since: int, till: int, o: OrderRow, l: LineRow)
    requires o in orders && l in lines && l.orderId == o.id && Between(o.created, since, till)
    ensures JoinRow(o, l) in SortById(Join(orders, lines, since, till))
  {
    var s := Join(orders, lines, since, till);
    JoinMember(orders, lines, since, till, JoinRow(o, l));
    assert JoinRow(o, l) in multiset(s);
  }

  lemma {:induction false} UngroupMember(gs: seq<Group>, x: Joined)
    ensures x in Ungroup(gs) <==> exists m :: 0 <= m < |gs| && x in gs[m].items
  {
    if gs != [] {
      UngroupMember(gs[1..], x);
      if x !in gs[0].items && x in Ungroup(gs) {
        var m :| 0 <= m < |gs[1..]| && x in gs[1..][m].items;
        assert x in gs[m + 1].items;
      }
      if exists m :: 0 <= m < |gs| && x in gs[m].items {
        var m :| 0 <= m < |gs| && x in gs[m].items;
        if m > 0 { assert x in gs[1..][m - 1].items; }
      }
    }
  }

  /** One step of `GroupByKey`: the head row joins the first run or opens a new one. */
  lemma GroupByKeyStep(s: seq<Joined>)
    requires s != []
    ensures var rest := GroupByKey(s[1..]);
            if rest != [] && rest[0].key == KeyOf(s[0])
            then GroupByKey(s) == [Group(rest[0].key, [s[0]] + rest[0].items)] + rest[1..]
            else GroupByKey(s) == [Group(KeyOf(s[0]), [s[0]])] + rest
  {
  }

  /** Dropping the head row keeps the rows sorted and the id determining the key. */
  lemma TailKeepsOrder(s: seq<Joined>)
    requires s != []
    ensures SortedById(s) ==> SortedById(s[1..])
    ensures KeyById(s) ==> KeyById(s[1..])
  {
    assert forall x :: x in s[1..] ==> x in s;
  }

  /** Neighbouring groups have ascending ids, strictly so when `strict`. */
  ghost predicate AdjacentIds(gs: seq<Group>, strict: bool) {
    forall i, j :: 0 <= i < j < |gs| && j == i + 1 ==> gs[i].key.id <= gs[j].key.id && (strict ==> gs[i].key.id < gs[j].key.id)
  }

  /** Growing the first group keeps neighbouring ids ordered. */
  lemma AdjacentGrow(x: Joined, rest: seq<Group>, strict: bool)
    requires rest != [] && AdjacentIds(rest, strict)
    ensures AdjacentIds([Group(rest[0].key, [x] + rest[0].items)] + rest[1..], strict)
  {
    var gs := [Group(rest[0].key, [x] + rest[0].items)] + rest[1..];
    forall i, j | 0 <= i < j < |gs| && j == i + 1
      ensures gs[i].key.id <= gs[j].key.id && (strict ==> gs[i].key.id < gs[j].key.id)
    {
      assert gs[j] == rest[j];
      assert gs[i].key == rest[i].key;
    }
  }

  /** A new first group below the next one keeps neighbouring ids ordered. */
  lemma AdjacentOpen(g: Group, rest: seq<Group>, strict: bool)
    requires AdjacentIds(rest, strict)
    requires rest != [] ==> g.key.id <= rest[0].key.id && (strict ==> g.key.id < rest[0].key.id)
    ensures AdjacentIds([g] + rest, strict)
  {
    var gs := [g] + rest;
    forall i, j | 0 <= i < j < |gs| && j == i + 1
      ensures gs[i].key.id <= gs[j].key.id && (strict ==> gs[i].key.id < gs[j].key.id)
    {
      assert gs[j] == rest[i];
      if i > 0 {
        assert gs[i] == rest[i - 1];
      }
    }
  }

  /** Adjacent groups of rows sorted by id have ascending ids; strictly so when the id determines the key. */
  lemma {:induction false} GroupIdsAdjacent(s: seq<Joined>, strict: bool)
    requires SortedById(s)
    requires strict ==> KeyById(s)
    ensures AdjacentIds(GroupByKey(s), strict)
  {
    if s != [] {
      var t := s[1..];
      TailKeepsOrder(s);
      GroupIdsAdjacent(t, strict);
      var rest := GroupByKey(t);
      GroupByKeyStep(s);
      if rest != [] && rest[0].key == KeyOf(s[0]) {
        AdjacentGrow(s[0], rest, strict);
      } else {
        if t != [] {
          assert s[1] == t[0] && rest[0].key == KeyOf(s[1]);
          assert s[0].orderId <= s[1].orderId;
          if strict {
            assert s[0] in s && s[1] in s;
          }
        }
        AdjacentOpen(Group(KeyOf(s[0]), [s[0]]), rest, strict);
      }
    }
  }

  /** Ordered neighbours give an ordered sequence. */
  lemma {:induction false} IdsChain(gs: seq<Group>, strict: bool, i: nat, j: nat)
    requires AdjacentIds(gs, strict)
    requires i < j < |gs|
    ensures gs[i].key.id <= gs[j].key.id
    ensures strict ==> gs[i].key.id < gs[j].key.id
    decreases j - i
  {
    if i + 1 < j {
      IdsChain(gs, strict, i + 1, j);
      assert gs[i].key.id <= gs[i + 1].key.id;
    }
  }

  /**
   * Over rows sorted by id, the group keys come in ascending id order; when the id
   * determines the key, strictly ascending, so no id heads two groups.
   */
  lemma GroupIdsIncrease(s: seq<Joined>)
    requires SortedById(s)
    ensures var gs := GroupByKey(s); forall i, j :: 0 <= i < j < |gs| ==> gs[i].key.id <= gs[j].key.id
    ensures KeyById(s) ==> var gs := GroupByKey(s); forall i, j :: 0 <= i < j < |gs| ==> gs[i].key.id < gs[j].key.id
  {
    var gs := GroupByKey(s);
    var strict := KeyById(s);
    GroupIdsAdjacent(s, strict);
    forall i, j | 0 <= i < j < |gs|
      ensures gs[i].key.id <= gs[j].key.id
      ensures strict ==> gs[i].key.id < gs[j].key.id
    {
      IdsChain(gs, strict, i, j);
    }
  }

  /** Under strictly ascending ids, one id heads at most one group. */
  lemma GroupIdUnique(gs: seq<Group>, m: nat, k: nat)
    requires forall i, j :: 0 <= i < j < |gs| ==> gs[i].key.id < gs[j].key.id
    requires m < |gs| && k < |gs| && gs[m].key.id == gs[k].key.id
    ensures m == k
  {
  }

  /** Over sorted rows whose id determines the key, a group holds exactly the rows with its id. */
  lemma GroupCollects(s: seq<Joined>, k: nat)
    requires SortedById(s) && KeyById(s)
    requires k < |GroupByKey(s)|
    ensures forall x :: x in GroupByKey(s)[k].items <==> x in s && x.orderId == GroupByKey(s)[k].key.id
  {
    var gs := GroupByKey(s);
    GroupIdsIncrease(s);
    forall x | x in s && x.orderId == gs[k].key.id
      ensures x in gs[k].items
    {
      UngroupMember(gs, x);
      var m :| 0 <= m < |gs| && x in gs[m].items;
      assert KeyOf(x) == gs[m].key;
      GroupIdUnique(gs, m, k);
    }
    forall x | x in gs[k].items
      ensures x in s && x.orderId == gs[k].key.id
    {
      assert KeyOf(x) == gs[k].key;
      UngroupMember(gs, x);
    }
  }

  /** With distinct order ids in the table, the id of a joined row determines its key. */
  lemma KeyByIdOfJoin(orders: seq<OrderRow>, lines: seq<LineRow>, since: int, till: int)
    requires DistinctOrderIds(orders)
    ensures KeyById(SortById(Join(orders, lines, since, till)))
  {
    var s := SortById(Join(orders, lines, since, till));
    forall x, y | x in s && y in s && x.orderId == y.orderId
      ensures KeyOf(x) == KeyOf(y)
    {
      JoinSource(orders, lines, since, till, x);
      JoinSource(orders, lines, since, till, y);
      var ox, oy := OrderRow(x.orderId, x.userId, x.created), OrderRow(y.orderId, y.userId, y.created);
      var i :| 0 <= i < |orders| && orders[i] == ox;
      var j :| 0 <= j < |orders| && orders[j] == oy;
      assert i == j;
    }
  }

  /** The order built from group `k` of `find_between`. */
  lemma GroupOrder(orders: seq<OrderRow>, lines: seq<LineRow>, since: int, till: int, k: nat)
    requires FindBetweenRows(orders, lines, since, till).Ok?
    requires k < |FindBetweenRows(orders, lines, since, till).value|
    ensures var gs := Groups(orders, lines, since, till);
            var o := FindBetweenRows(orders, lines, since, till).value[k];
            && |gs| == |FindBetweenRows(orders, lines, since, till).value|
            && o.identifier == gs[k].key.id && o.userId == gs[k].key.userId && o.created == gs[k].key.created
            && o.LineSet() == SetOf(LinesOfGroup(gs[k].items))
            && OrderRow(o.identifier, o.userId, o.created) in orders && Between(o.created, since, till)
            && LineRow(o.identifier, gs[k].items[0].productId, gs[k].items[0].quantity) in lines
  {
    var gs := Groups(orders, lines, since, till);
    var x := gs[k].items[0];
    assert KeyOf(x) == gs[k].key;
    UngroupMember(gs, x);
    JoinSource(orders, lines, since, till, x);
  }

  /** Each built order carries the id of its group's key. */
  lemma BuiltIds(gs: seq<Group>)
    ensures var r := BuildOrders(gs);
            r.Ok? ==> |r.value| == |gs| && forall k :: 0 <= k < |gs| ==> r.value[k].identifier == gs[k].key.id
  {
    var r := BuildOrders(gs);
    if r.Ok? {
      forall k | 0 <= k < |gs|
        ensures r.value[k].identifier == gs[k].key.id
      {
        assert BuildOrder(gs[k]) == Ok(r.value[k]);
      }
    }
  }

  /** `find_between` yields only orders created within `[since, till]`. */
  lemma FindBetweenInRange(orders: seq<OrderRow>, lines: seq<LineRow>, since: int, till: int)
    ensures var r := FindBetweenRows(orders, lines, since, till);
            r.Ok? ==> forall o :: o in r.value ==> since <= o.created <= till
  {
    var r := FindBetweenRows(orders, lines, since, till);
    if r.Ok? {
      forall o | o in r.value
        ensures since <= o.created <= till
      {
        var k :| 0 <= k < |r.value| && r.value[k] == o;
        GroupOrder(orders, lines, since, till, k);
      }
    }
  }

  /** The groups of the query come in ascending id order, strictly so over a table with distinct ids. */
  lemma GroupIdsOfJoin(orders: seq<OrderRow>, lines: seq<LineRow>, since: int, till: int)
    ensures var gs := Groups(orders, lines, since, till);
            forall i, j :: 0 <= i < j < |gs| ==> gs[i].key.id <= gs[j].key.id
    ensures var gs := Groups(orders, lines, since, till);
            DistinctOrderIds(orders) ==> forall i, j :: 0 <= i < j < |gs| ==> gs[i].key.id < gs[j].key.id
  {
    var s := SortById(Join(orders, lines, since, till));
    if DistinctOrderIds(orders) {
      KeyByIdOfJoin(orders, lines, since, till);
    }
    GroupIdsIncrease(s);
    assert Groups(orders, lines, since, till) == GroupByKey(s);
  }

  /**
   * `find_between` yields orders in ascending id order; when the table's ids are
   * distinct, strictly ascending, so each id is yielded once.
   */
  lemma FindBetweenAscending(orders: seq<OrderRow>, lines: seq<LineRow>, since: int, till: int)
    ensures var r := FindBetweenRows(orders, lines, since, till);
            r.Ok? ==> forall i, j :: 0 <= i < j < |r.value| ==> r.value[i].identifier <= r.value[j].identifier
    ensures var r := FindBetweenRows(orders, lines, since, till);
            r.Ok? && DistinctOrderIds(orders) ==>
              forall i, j :: 0 <= i < j < |r.value| ==> r.value[i].identifier < r.value[j].identifier
  {
    var gs := Groups(orders, lines, since, till);
    var r := BuildOrders(gs);
    var strict := DistinctOrderIds(orders);
    GroupIdsOfJoin(orders, lines, since, till);
    BuiltIds(gs);
    if r.Ok? {
      forall i, j | 0 <= i < j < |r.value|
        ensures r.value[i].identifier <= r.value[j].identifier
        ensures strict ==> r.value[i].identifier < r.value[j].identifier
      {
        assert r.value[i].identifier == gs[i].key.id && r.value[j].identifier == gs[j].key.id;
      }
    }
  }

  /**
   * Every yielded order is a stored `orders` row in range that has at least one
   * `order_lines` row: the query is an inner join.
   */
  lemma FindBetweenJoined(orders: seq<OrderRow>, lines: seq<LineRow>, since: int, till: int)
    ensures var r := FindBetweenRows(orders, lines, since, till);
            r.Ok? ==> forall o :: o in r.value ==>
                        && OrderRow(o.identifier, o.userId, o.created) in orders
                        && exists l :: l in lines && l.orderId == o.identifier
  {
    var r := FindBetweenRows(orders, lines, since, till);
    if r.Ok? {
      forall o | o in r.value
        ensures OrderRow(o.identifier, o.userId, o.created) in orders
        ensures exists l :: l in lines && l.orderId == o.identifier
      {
        var k :| 0 <= k < |r.value| && r.value[k] == o;
        GroupOrder(orders, lines, since, till, k);
      }
    }
  }

  /** Every order row in range with at least one line row is yielded. */
  lemma FindBetweenComplete(orders: seq<OrderRow>, lines: seq<LineRow>, since: int, till: int, row: OrderRow, l: LineRow)
    requires row in orders && l in lines && l.orderId == row.id && Between(row.created, since, till)
    ensures var r := FindBetweenRows(orders, lines, since, till);
            r.Ok? ==> exists k :: 0 <= k < |r.value| && r.value[k].identifier == row.id
  {
    var r := FindBetweenRows(orders, lines, since, till);
    var gs := Groups(orders, lines, since, till);
    JoinContains(orders, lines, since, till, row, l);
    UngroupMember(gs, JoinRow(row, l));
    var m :| 0 <= m < |gs| && JoinRow(row, l) in gs[m].items;
    assert KeyOf(JoinRow(row, l)) == gs[m].key;
    if r.Ok? {
      GroupOrder(orders, lines, since, till, m);
    }
  }

  /** Each yielded order's lines are exactly the stored line rows of its id. */
  lemma FindBetweenLines(orders: seq<OrderRow>, lines: seq<LineRow>, since: int, till: int)
    requires DistinctOrderIds(orders)
    ensures var r := FindBetweenRows(orders, lines, since, till);
            r.Ok? ==> forall o :: o in r.value ==> o.LineSet() == LinesFor(lines, o.identifier)
  {
    var r := FindBetweenRows(orders, lines, since, till);
    if r.Ok? {
      forall o | o in r.value
        ensures o.LineSet() == LinesFor(lines, o.identifier)
      {
        var k :| 0 <= k < |r.value| && r.value[k] == o;
        GroupOrder(orders, lines, since, till, k);
        GroupLines(orders, lines, since, till, k);
      }
    }
  }

  lemma GroupLines(orders: seq<OrderRow>, lines: seq<LineRow>, since: int, till: int, k: nat)
    requires DistinctOrderIds(orders)
    requires k < |Groups(orders, lines, since, till)|
    ensures var g := Groups(orders, lines, since, till)[k];
            SetOf(LinesOfGroup(g.items)) == LinesFor(lines, g.key.id)
  {
    var s := SortById(Join(orders, lines, since, till));
    var g := Groups(orders, lines, since, till)[k];
    var ls := LinesOfGroup(g.items);
    KeyByIdOfJoin(orders, lines, since, till);
    GroupCollects(s, k);
    var x0 := g.items[0];
    assert KeyOf(x0) == g.key;
    JoinSource(orders, lines, since, till, x0);
    var row := OrderRow(x0.orderId, x0.userId, x0.created);
    forall ol | ol in SetOf(ls)
      ensures ol in LinesFor(lines, g.key.id)
    {
      var i :| 0 <= i < |ls| && ls[i] == ol;
      var x := g.items[i];
      JoinSource(orders, lines, since, till, x);
      assert LineRow(x.orderId, x.productId, x.quantity) in lines;
    }
    forall ol | ol in LinesFor(lines, g.key.id)
      ensures ol in SetOf(ls)
    {
      var l :| l in lines && l.orderId == g.key.id && ol == OrderLine(l.productId, l.quantity);
      JoinContains(orders, lines, since, till, row, l);
      var x := JoinRow(row, l);
      assert x in g.items;
      var i :| 0 <= i < |g.items| && g.items[i] == x;
      assert ls[i] == ol;
    }
  }

  /** Over tables of non-negative ids and positive quantities, `find_between` raises nothing. */
  lemma FindBetweenSucceeds(orders: seq<OrderRow>, lines: seq<LineRow>, since: int, till: int)
    requires forall row :: row in orders ==> row.id >= 0
    requires forall l :: l in lines ==> l.quantity > 0
    ensures FindBetweenRows(orders, lines, since, till).Ok?
  {
    var gs := Groups(orders, lines, since, till);
    forall k | 0 <= k < |gs|
      ensures BuildOrder(gs[k]).Ok?
    {
      GroupBuilds(orders, lines, since, till, gs[k]);
    }
  }

  /** Each group of the query over such tables builds. */
  lemma GroupBuilds(orders: seq<OrderRow>, lines: seq<LineRow>, since: int, till: int, g: Group)
    requires forall row :: row in orders ==> row.id >= 0
    requires forall l :: l in lines ==> l.quantity > 0
    requires g in Groups(orders, lines, since, till)
    ensures BuildOrder(g).Ok?
  {
    var s := SortById(Join(orders, lines, since, till));
    var gs := GroupByKey(s);
    assert Grouped(s, gs);
    var k :| 0 <= k < |gs| && gs[k] == g;
    forall y | y in g.items
      ensures y.orderId == g.key.id && y.orderId >= 0 && y.quantity > 0
    {
      assert KeyOf(y) == g.key;
      UngroupMember(gs, y);
      JoinSource(orders, lines, since, till, y);
      assert OrderRow(y.orderId, y.userId, y.created) in orders;
      assert LineRow(y.orderId, y.productId, y.quantity) in lines;
    }
    assert g.items[0] in g.items;
  }

  // ---------------------------------------------------------------------------
  // Saving, then querying
  // ---------------------------------------------------------------------------

  /**
   * A batch whose ids are new: none is in the `orders` table, none has line rows
   * stored yet, and no two orders of the batch share one.
   */
  predicate FreshBatch(orders: seq<OrderRow>, lines: seq<LineRow>, aggregates: seq<Order>) {
    && (forall k :: 0 <= k < |aggregates| ==> aggregates[k].identifier !in OrderIds(orders))
    && (forall k, l :: 0 <= k < |aggregates| && l in lines ==> l.orderId != aggregates[k].identifier)
    && (forall i, j :: 0 <= i < j < |aggregates| ==> aggregates[i].identifier != aggregates[j].identifier)
  }

  /** Within a fresh batch, an id names one order. */
  lemma BatchIdUnique(aggregates: seq<Order>, k: nat, i: nat)
    requires forall i, j :: 0 <= i < j < |aggregates| ==> aggregates[i].identifier != aggregates[j].identifier
    requires k < |aggregates| && i < |aggregates|
    ensures aggregates[k].identifier == aggregates[i].identifier ==> k == i
  {
  }

  /** Within a table of distinct ids, an id names one row. */
  lemma RowIdUnique(orders: seq<OrderRow>, m: nat, n: nat)
    requires DistinctOrderIds(orders)
    requires m < |orders| && n < |orders|
    ensures orders[m].id == orders[n].id ==> m == n
  {
  }

  /** Saving a fresh batch keeps the ids of the `orders` table distinct. */
  lemma SaveKeepsDistinct(orders: seq<OrderRow>, lines: seq<LineRow>, aggregates: seq<Order>)
    requires DistinctOrderIds(orders) && FreshBatch(orders, lines, aggregates)
    ensures DistinctOrderIds(orders + OrderRows(aggregates))
  {
    var t := orders + OrderRows(aggregates);
    forall i, j | 0 <= i < j < |t|
      ensures t[i].id != t[j].id
    {
      if j >= |orders| && i < |orders| {
        assert t[i] in orders;
        assert t[j].id == aggregates[j - |orders|].identifier;
      }
    }
  }

  /** The stored line rows of one id of a fresh batch are that order's lines. */
  lemma SavedLines(orders: seq<OrderRow>, lines: seq<LineRow>, aggregates: seq<Order>, i: nat)
    requires FreshBatch(orders, lines, aggregates) && i < |aggregates|
    ensures LinesFor(lines + LineRows(aggregates), aggregates[i].identifier) == aggregates[i].LineSet()
  {
    var a := aggregates[i];
    var all := lines + LineRows(aggregates);
    forall ol | ol in LinesFor(all, a.identifier)
      ensures ol in a.LineSet()
    {
      var r :| r in all && r.orderId == a.identifier && ol == OrderLine(r.productId, r.quantity);
      assert r !in lines;
      LineRowsMember(aggregates, r);
      var k, l :| 0 <= k < |aggregates| && l in aggregates[k].lines &&
                  r == LineRow(aggregates[k].identifier, l.productId, l.quantity);
      BatchIdUnique(aggregates, k, i);
      assert ol == l;
    }
    forall ol | ol in a.LineSet()
      ensures ol in LinesFor(all, a.identifier)
    {
      var r := LineRow(a.identifier, ol.productId, ol.quantity);
      LineRowsMember(aggregates, r);
      assert r in all;
    }
  }

  /**
   * The round trip of `save` and `find_between`: after a fresh batch is saved
   * over a well-formed store, the query over a range holding an order of the
   * batch that has lines succeeds and yields that order back, with its user,
   * its creation time and its set of lines.
   */
  lemma SaveThenFind(orders: seq<OrderRow>, lines: seq<LineRow>, aggregates: seq<Order>, since: int, till: int, i: nat)
    requires forall row :: row in orders ==> row.id >= 0
    requires forall l :: l in lines ==> l.quantity > 0
    requires DistinctOrderIds(orders)
    requires forall k :: 0 <= k < |aggregates| ==> aggregates[k].Valid()
    requires FreshBatch(orders, lines, aggregates)
    requires i < |aggregates| && aggregates[i].lines != [] && Between(aggregates[i].created, since, till)
    ensures var r := FindBetweenRows(orders + OrderRows(aggregates), lines + LineRows(aggregates), since, till);
            && r.Ok?
            && exists o :: o in r.value && o.identifier == aggregates[i].identifier && o.userId == aggregates[i].userId
                        && o.created == aggregates[i].created && o.LineSet() == aggregates[i].LineSet()
  {
    var a := aggregates[i];
    SavedRows(orders, aggregates, i);
    SavedLineRows(lines, aggregates);
    SaveKeepsDistinct(orders, lines, aggregates);
    var l := LineRow(a.identifier, a.lines[0].productId, a.lines[0].quantity);
    LineRowsMember(aggregates, l);
    FindStored(orders + OrderRows(aggregates), lines + LineRows(aggregates), since, till, OrderRowOf(a), l);
    SavedLines(orders, lines, aggregates, i);
  }

  /** The `orders` table after a save holds the batch's rows, all with non-negative ids when the old ones were. */
  lemma SavedRows(orders: seq<OrderRow>, aggregates: seq<Order>, i: nat)
    requires i < |aggregates|
    ensures OrderRowOf(aggregates[i]) in orders + OrderRows(aggregates)
    ensures (forall row :: row in orders ==> row.id >= 0) ==> forall row :: row in orders + OrderRows(aggregates) ==> row.id >= 0
  {
    var t := orders + OrderRows(aggregates);
    assert t[|orders| + i] == OrderRowOf(aggregates[i]);
    forall row | row in OrderRows(aggregates)
      ensures row.id >= 0
    {
      var k :| 0 <= k < |aggregates| && OrderRows(aggregates)[k] == row;
    }
  }

  /** The line rows of a batch of valid orders all have positive quantities. */
  lemma SavedLineRows(lines: seq<LineRow>, aggregates: seq<Order>)
    requires forall k :: 0 <= k < |aggregates| ==> aggregates[k].Valid()
    ensures (forall l :: l in lines ==> l.quantity > 0) ==> forall l :: l in lines + LineRows(aggregates) ==> l.quantity > 0
  {
    forall l | l in LineRows(aggregates)
      ensures l.quantity > 0
    {
      LineRowsMember(aggregates, l);
      var k, ol :| 0 <= k < |aggregates| && ol in aggregates[k].lines &&
                   l == LineRow(aggregates[k].identifier, ol.productId, ol.quantity);
      assert aggregates[k].Valid();
    }
  }

  /**
   * Over a well-formed store with distinct order ids, a stored order row in range
   * with a line row is yielded with its user, its creation time and its stored lines.
   */
  lemma FindStored(orders: seq<OrderRow>, lines: seq<LineRow>, since: int, till: int, row: OrderRow, l: LineRow)
    requires forall row :: row in orders ==> row.id >= 0
    requires forall l :: l in lines ==> l.quantity > 0
    requires DistinctOrderIds(orders)
    requires row in orders && l in lines && l.orderId == row.id && Between(row.created, since, till)
    ensures var r := FindBetweenRows(orders, lines, since, till);
            && r.Ok?
            && exists o :: o in r.value && o.identifier == row.id && o.userId == row.userId
                        && o.created == row.created && o.LineSet() == LinesFor(lines, row.id)
  {
    FindBetweenSucceeds(orders, lines, since, till);
    var r := FindBetweenRows(orders, lines, since, till);
    FindBetweenComplete(orders, lines, since, till, row, l);
    var k :| 0 <= k < |r.value| && r.value[k].identifier == row.id;
    var o := r.value[k];
    FindBetweenJoined(orders, lines, since, till);
    var stored := OrderRow(o.identifier, o.userId, o.created);
    assert o in r.value;
    StoredRowById(orders, stored, row);
    FindBetweenLines(orders, lines, since, till);
  }

  /** In a table of distinct ids, two rows with one id are one row. */
  lemma StoredRowById(orders: seq<OrderRow>, x: OrderRow, y: OrderRow)
    requires DistinctOrderIds(orders)
    requires x in orders && y in orders && x.id == y.id
    ensures x == y
  {
    var m :| 0 <= m < |orders| && orders[m] == x;
    var n :| 0 <= n < |orders| && orders[n] == y;
    RowIdUnique(orders, m, n);
  }

  /** An order saved without lines has no `order_lines` row, so the inner join never yields it. */
  lemma SaveWithoutLinesNotFound(orders: seq<OrderRow>, lines: seq<LineRow>, aggregates: seq<Order>, since: int, till: int, i: nat)
    requires FreshBatch(orders, lines, aggregates)
    requires i < |aggregates| && aggregates[i].lines == []
    ensures var r := FindBetweenRows(orders + OrderRows(aggregates), lines + LineRows(aggregates), since, till);
            r.Ok? ==> forall o :: o in r.value ==> o.identifier != aggregates[i].identifier
  {
    NoLineRows(lines, aggregates, i);
    NoLinesNotFound(orders + OrderRows(aggregates), lines + LineRows(aggregates), since, till, aggregates[i].identifier);
  }

  /** No line row of a fresh save carries the id of an order saved without lines. */
  lemma NoLineRows(lines: seq<LineRow>, aggregates: seq<Order>, i: nat)
    requires forall k, l :: 0 <= k < |aggregates| && l in lines ==> l.orderId != aggregates[k].identifier
    requires forall i, j :: 0 <= i < j < |aggregates| ==> aggregates[i].identifier != aggregates[j].identifier
    requires i < |aggregates| && aggregates[i].lines == []
    ensures forall l :: l in lines + LineRows(aggregates) ==> l.orderId != aggregates[i].identifier
  {
    forall l | l in lines + LineRows(aggregates)
      ensures l.orderId != aggregates[i].identifier
    {
      if l !in lines {
        LineRowsMember(aggregates, l);
        var k, ol :| 0 <= k < |aggregates| && ol in aggregates[k].lines &&
                     l == LineRow(aggregates[k].identifier, ol.productId, ol.quantity);
        assert k != i;
        BatchIdUnique(aggregates, k, i);
      }
    }
  }

  /** An id without line rows is never yielded. */
  lemma NoLinesNotFound(orders: seq<OrderRow>, lines: seq<LineRow>, since: int, till: int, id: int)
    requires forall l :: l in lines ==> l.orderId != id
    ensures var r := FindBetweenRows(orders, lines, since, till);
            r.Ok? ==> forall o :: o in r.value ==> o.identifier != id
  {
    FindBetweenJoined(orders, lines, since, till);
  }
}
