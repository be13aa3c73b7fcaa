/**
 * What `batch_insert` promises, stated over `Ingest`, the function its loop is
 * proved against: how order lines are collapsed, that tables only grow and never
 * get a duplicate row, which orders are collected, and when the batch raises.
 */
module CompanyServiceProperties {
  import opened Wrappers
  import opened Failures
  import opened Collections
  import opened CompanyDomain
  import opened CompanyStorage
  import opened CompanyService

  // ---------------------------------------------------------------------------
  // Collapsing products into order lines
  // ---------------------------------------------------------------------------

  /** The total quantity of the lines. */
  function TotalQuantity(ls: seq<OrderLine>): int {
    if ls == [] then 0 else TotalQuantity(ls[..|ls| - 1]) + ls[|ls| - 1].quantity
  }

  lemma {:induction false} TallyTotal(keys: seq<ProductID>, ids: seq<ProductID>)
    ensures TotalQuantity(Tally(keys, ids)) == SumCounts(keys, ids)
  {
    if keys != [] {
      var init := keys[..|keys| - 1];
      TallyTotal(init, ids);
      assert Tally(keys, ids)[..|keys| - 1] == Tally(init, ids);
    }
  }

  /**
   * `Counter(products)` turned into lines: one line per distinct product id, in
   * first-appearance order, each with the number of times the product was
   * listed; the lines name exactly the listed products.
   */
  lemma CollapseLines(ids: seq<ProductID>)
    ensures var ls := Collapse(ids);
            && (forall i, j :: 0 <= i < j < |ls| ==> ls[i].productId != ls[j].productId)
            && (forall k :: 0 <= k < |ls| ==> ls[k].quantity == Count(ids, ls[k].productId) && ls[k].quantity > 0)
            && (forall x :: x in ids <==> exists k :: 0 <= k < |ls| && ls[k].productId == x)
  {
    var keys := Dedup(ids);
    var ls := Collapse(ids);
    forall x | x in ids
      ensures exists k :: 0 <= k < |ls| && ls[k].productId == x
    {
      var i :| 0 <= i < |ids| && ids[i] == x;
      var k :| 0 <= k < |keys| && keys[k] == x;
      assert ls[k].productId == x;
    }
  }

  /** No listed product is lost: the quantities add up to the number of products listed. */
  lemma CollapseTotal(ids: seq<ProductID>)
    ensures TotalQuantity(Collapse(ids)) == |ids|
  {
    TallyTotal(Dedup(ids), ids);
    CountsSumToLength(ids);
  }

  /** Listing a product twice gives one line of quantity two. */
  lemma CollapseExample()
    ensures Collapse([7, 3, 7]) == [OrderLine(7, 2), OrderLine(3, 1)]
  {
    var ids := [7, 3, 7];
    ExampleKeys();
    ExampleCounts();
    var ls := Tally([7, 3], ids);
    assert |ls| == 2 && ls[0] == OrderLine(7, 2) && ls[1] == OrderLine(3, 1);
  }

  lemma ExampleKeys()
    ensures Dedup([7, 3, 7]) == [7, 3]
  {
    assert [7, 3, 7][..2] == [7, 3];
    assert Dedup([7, 3]) == [7, 3] by {
      assert [7, 3][..1] == [7];
      assert Dedup([7]) == [7] by { assert [7][..0] == []; }
    }
  }

  lemma ExampleCounts()
    ensures Count([7, 3, 7], 7) == 2 && Count([7, 3, 7], 3) == 1
  {
    assert [7, 3, 7][..2] == [7, 3];
    assert [7, 3][..1] == [7];
    assert [7][..0] == [];
    assert Count([7], 7) == 1 && Count([7], 3) == 0;
    assert Count([7, 3], 7) == 1 && Count([7, 3], 3) == 1;
  }

  // ---------------------------------------------------------------------------
  // The tables only grow, without duplicate rows
  // ---------------------------------------------------------------------------

  predicate DistinctUserIds(users: seq<UserRow>) {
    forall i, j :: 0 <= i < j < |users| ==> users[i].id != users[j].id
  }

  predicate DistinctProductIds(products: seq<ProductRow>) {
    forall i, j :: 0 <= i < j < |products| ==> products[i].id != products[j].id
  }

  lemma SaveUserGrows(users: seq<UserRow>, u: User)
    ensures users <= SaveUser(users, u)
    ensures u.identifier in UserIds(SaveUser(users, u))
    ensures DistinctUserIds(users) ==> DistinctUserIds(SaveUser(users, u))
  {
    var t := SaveUser(users, u);
    assert UserRowOf(u) in users + [UserRowOf(u)];
    if u.identifier !in UserIds(users) {
      forall i | 0 <= i < |users|
        ensures users[i].id != u.identifier
      {
        assert users[i] in users;
      }
    }
  }

  lemma SaveProductGrows(products: seq<ProductRow>, p: Product)
    ensures products <= SaveProduct(products, p)
    ensures p.identifier in ProductIds(SaveProduct(products, p))
    ensures DistinctProductIds(products) ==> DistinctProductIds(SaveProduct(products, p))
  {
    assert ProductRowOf(p) in products + [ProductRowOf(p)];
    if p.identifier !in ProductIds(products) {
      forall i | 0 <= i < |products|
        ensures products[i].id != p.identifier
      {
        assert products[i] in products;
      }
    }
  }

  /** The ids of the product records, in list order. */
  function RecordIds(prs: seq<ProductRecord>): (ids: seq<ProductID>)
    ensures |ids| == |prs|
    ensures forall k :: 0 <= k < |prs| ==> ids[k] == prs[k].id
  {
    if prs == [] then [] else RecordIds(prs[..|prs| - 1]) + [prs[|prs| - 1].id]
  }

  /** Whether no product record has a negative id, stated the way the product loop meets them. */
  predicate NonNegativeIds(prs: seq<ProductRecord>) {
    prs == [] || (NonNegativeIds(prs[..|prs| - 1]) && prs[|prs| - 1].id >= 0)
  }

  lemma {:induction false} NonNegativeIdsIff(prs: seq<ProductRecord>)
    ensures NonNegativeIds(prs) <==> forall k :: 0 <= k < |prs| ==> prs[k].id >= 0
  {
    if prs != [] {
      var init := prs[..|prs| - 1];
      NonNegativeIdsIff(init);
      assert forall k :: 0 <= k < |init| ==> init[k] == prs[k];
    }
  }

  /** The ids of a record's products. */
  function RecordIdSet(prs: seq<ProductRecord>): set<ProductID> {
    set pr | pr in prs :: pr.id
  }

  /**
   * The product loop fails (with `ValueError`) exactly when some product has a
   * negative id; without failure it collects one product per record, in order.
   */
  lemma {:induction false} SaveProductsOutcome(table: seq<ProductRow>, prs: seq<ProductRecord>)
    ensures var b := SaveProducts(table, prs);
            && (b.failure.None? <==> NonNegativeIds(prs))
            && (b.failure.Some? ==> b.failure == Some(ValueError(NegativeIdentifier)))
            && (b.failure.None? ==> IdsOf(b.bought) == RecordIds(prs))
  {
    if prs != [] {
      var init := prs[..|prs| - 1];
      var pr := prs[|prs| - 1];
      SaveProductsOutcome(table, init);
      var b0 := SaveProducts(table, init);
      var b := SaveProducts(table, prs);
      if b0.failure.None? && pr.id >= 0 {
        var p := NewProduct(pr.id, pr.name, pr.price).value;
        assert b.bought == b0.bought + [p];
        assert IdsOf(b.bought) == IdsOf(b0.bought) + [p.identifier];
        assert RecordIds(prs) == RecordIds(init) + [pr.id];
      }
    }
  }

  /**
   * The `products` table only grows and gets no duplicate id, and once the
   * loop gets through, every listed product is in it.
   */
  lemma {:induction false} SaveProductsTables(table: seq<ProductRow>, prs: seq<ProductRecord>)
    ensures var b := SaveProducts(table, prs);
            && table <= b.products
            && (DistinctProductIds(table) ==> DistinctProductIds(b.products))
            && (b.failure.None? ==> RecordIdSet(prs) <= ProductIds(b.products))
  {
    if prs != [] {
      var init := prs[..|prs| - 1];
      var pr := prs[|prs| - 1];
      SaveProductsTables(table, init);
      var b0 := SaveProducts(table, init);
      var b := SaveProducts(table, prs);
      if b0.failure.None? && pr.id >= 0 {
        var p := NewProduct(pr.id, pr.name, pr.price).value;
        assert b.products == SaveProduct(b0.products, p);
        SaveProductGrows(b0.products, p);
        assert ProductIds(b0.products) <= ProductIds(b.products);
        assert prs == init + [pr];
        assert RecordIdSet(prs) == RecordIdSet(init) + {pr.id};
      }
    }
  }

  /** Both halves of what the product loop does, for the callers that need them together. */
  lemma SaveProductsFacts(table: seq<ProductRow>, prs: seq<ProductRecord>)
    ensures var b := SaveProducts(table, prs);
            && table <= b.products
            && (DistinctProductIds(table) ==> DistinctProductIds(b.products))
            && (b.failure.None? <==> NonNegativeIds(prs))
            && (b.failure.Some? ==> b.failure == Some(ValueError(NegativeIdentifier)))
            && (b.failure.None? ==> IdsOf(b.bought) == RecordIds(prs))
            && (b.failure.None? ==> RecordIdSet(prs) <= ProductIds(b.products))
  {
    SaveProductsOutcome(table, prs);
    SaveProductsTables(table, prs);
  }

  /** A step's tables extend the tables before it, and no step adds a second row for an id. */
  lemma StepGrows(p: Progress, rec: Record, orderTable: seq<OrderRow>)
    ensures var q := Step(p, rec, orderTable);
            && p.users <= q.users && p.products <= q.products && p.pending <= q.pending
            && (DistinctUserIds(p.users) ==> DistinctUserIds(q.users))
            && (DistinctProductIds(p.products) ==> DistinctProductIds(q.products))
  {
    var q := Step(p, rec, orderTable);
    if p.failure.None? && rec.user.id >= 0 {
      var u := NewUser(rec.user.id, rec.user.name, rec.user.city).value;
      StepTables(p, rec, orderTable);
      SaveUserGrows(p.users, u);
      SaveProductsFacts(p.products, rec.products);
    } else {
      assert q.users == p.users && q.products == p.products && q.pending == p.pending;
    }
  }

  /** The tables after a step of a record whose user can be constructed. */
  lemma StepTables(p: Progress, rec: Record, orderTable: seq<OrderRow>)
    requires p.failure.None? && rec.user.id >= 0
    ensures var q := Step(p, rec, orderTable);
            && q.users == SaveUser(p.users, User(rec.user.id, rec.user.name, rec.user.city))
            && q.products == SaveProducts(p.products, rec.products).products
            && p.pending <= q.pending
  {
  }

  /**
   * Over the whole batch: the users, products and pending orders only grow, and
   * tables without duplicate ids stay so, because every save is guarded by `exists`.
   */
  lemma {:induction false} IngestGrows(start: Progress, records: seq<Record>, orderTable: seq<OrderRow>)
    ensures var run := Ingest(start, records, orderTable);
            && start.users <= run.users && start.products <= run.products && start.pending <= run.pending
            && (DistinctUserIds(start.users) ==> DistinctUserIds(run.users))
            && (DistinctProductIds(start.products) ==> DistinctProductIds(run.products))
  {
    if records != [] {
      var init := records[..|records| - 1];
      IngestGrows(start, init, orderTable);
      StepGrows(Ingest(start, init, orderTable), records[|records| - 1], orderTable);
    }
  }

  // ---------------------------------------------------------------------------
  // What one step does
  // ---------------------------------------------------------------------------

  /** The order a record makes when everything in it checks out. */
  function OrderOf(rec: Record): Order
    requires rec.id >= 0
  {
    NewOrderOk(rec.id, rec.user.id, Collapse(RecordIds(rec.products)), rec.created)
  }

  /** `NewOrder` on collapsed lines, which always have positive quantities. */
  function NewOrderOk(identifier: nat, userId: UserID, ls: seq<OrderLine>, created: int): (o: Order)
    requires forall l :: l in ls ==> l.quantity > 0
    ensures NewOrder(identifier, userId, ls, created) == Ok(o)
  {
    NewOrder(identifier, userId, ls, created).value
  }

  lemma CollapsePositive(ids: seq<ProductID>)
    ensures forall l :: l in Collapse(ids) ==> l.quantity > 0
  {
    CollapseLines(ids);
    var ls := Collapse(ids);
    forall l | l in ls
      ensures l.quantity > 0
    {
      var k :| 0 <= k < |ls| && ls[k] == l;
    }
  }

  /** Whether every id in the record is non-negative, so that no constructor raises. */
  predicate WellFormed(rec: Record) {
    && rec.id >= 0 && rec.user.id >= 0
    && NonNegativeIds(rec.products)
  }

  /**
   * One record after records that went through: it raises `ValueError` when one of
   * its ids is negative, `ConflictError` with its id when that id is stored
   * already, and otherwise appends its order, which has the record's id, user and
   * creation time and the collapsed products as lines; its user and products are
   * in the tables then.
   */
  lemma StepOutcome(p: Progress, rec: Record, orderTable: seq<OrderRow>)
    requires p.failure.None?
    ensures var q := Step(p, rec, orderTable);
            && (!WellFormed(rec) ==> q.failure == Some(ValueError(NegativeIdentifier)))
            && (WellFormed(rec) && rec.id in OrderIds(orderTable) ==> q.failure == Some(ConflictError(rec.id)))
            && (q.failure.None? <==> WellFormed(rec) && rec.id !in OrderIds(orderTable))
            && (q.failure.None? ==> q.pending == p.pending + [OrderOf(rec)])
            && (q.failure.None? ==> rec.user.id in UserIds(q.users) &&
                                    RecordIdSet(rec.products) <= ProductIds(q.products))
  {
    var q := Step(p, rec, orderTable);
    if rec.user.id >= 0 {
      var u := NewUser(rec.user.id, rec.user.name, rec.user.city).value;
      SaveUserGrows(p.users, u);
      var b := SaveProducts(p.products, rec.products);
      SaveProductsFacts(p.products, rec.products);
      if b.failure.None? {
        CollapsePositive(IdsOf(b.bought));
        if rec.id >= 0 {
          SaveUserGrows(p.users, u);
          assert UserIds(SaveUser(p.users, u)) <= UserIds(q.users);
        }
      }
    }
  }

  // ---------------------------------------------------------------------------
  // What the whole batch does
  // ---------------------------------------------------------------------------

  /** A batch that raises nothing is a run of steps that raise nothing. */
  lemma NoFailureBefore(start: Progress, records: seq<Record>, orderTable: seq<OrderRow>)
    requires records != [] && Ingest(start, records, orderTable).failure.None?
    ensures Ingest(start, records[..|records| - 1], orderTable).failure.None?
  {
  }

  /** A batch that raises nothing collects one order per record after the orders it started with. */
  lemma {:induction false} IngestPendingLength(start: Progress, records: seq<Record>, orderTable: seq<OrderRow>)
    requires start.failure.None?
    ensures var run := Ingest(start, records, orderTable);
            run.failure.None? ==> |run.pending| == |start.pending| + |records| && start.pending <= run.pending
  {
    if records != [] {
      var init := records[..|records| - 1];
      var p := Ingest(start, init, orderTable);
      IngestPendingLength(start, init, orderTable);
      if Ingest(start, records, orderTable).failure.None? {
        NoFailureBefore(start, records, orderTable);
        StepOutcome(p, records[|records| - 1], orderTable);
      }
    }
  }

  /**
   * What a batch that went through holds of one of its records: the record is
   * well-formed, its id is not in the `orders` table, its order is the `k`-th
   * one collected after the first `n`, and its user and products are in the tables.
   */
  predicate Carried(run: Progress, n: nat, k: nat, rec: Record, orderTable: seq<OrderRow>) {
    && WellFormed(rec) && rec.id !in OrderIds(orderTable)
    && n + k < |run.pending| && run.pending[n + k] == OrderOf(rec)
    && rec.user.id in UserIds(run.users)
    && RecordIdSet(rec.products) <= ProductIds(run.products)
  }

  lemma UserIdsGrow(a: seq<UserRow>, b: seq<UserRow>)
    requires a <= b
    ensures UserIds(a) <= UserIds(b)
  {
    forall x | x in UserIds(a)
      ensures x in UserIds(b)
    {
      var r :| r in a && r.id == x;
      var i :| 0 <= i < |a| && a[i] == r;
      assert b[i] == r;
    }
  }

  lemma ProductIdsGrow(a: seq<ProductRow>, b: seq<ProductRow>)
    requires a <= b
    ensures ProductIds(a) <= ProductIds(b)
  {
    forall x | x in ProductIds(a)
      ensures x in ProductIds(b)
    {
      var r :| r in a && r.id == x;
      var i :| 0 <= i < |a| && a[i] == r;
      assert b[i] == r;
    }
  }

  /** What holds of a record stays true when the tables and the pending orders only grow. */
  lemma CarryOver(p: Progress, q: Progress, n: nat, k: nat, rec: Record, orderTable: seq<OrderRow>)
    requires Carried(p, n, k, rec, orderTable)
    requires p.users <= q.users && p.products <= q.products && p.pending <= q.pending
    ensures Carried(q, n, k, rec, orderTable)
  {
    UserIdsGrow(p.users, q.users);
    ProductIdsGrow(p.products, q.products);
  }

  /** The record a step went through with holds of the step's result. */
  lemma LastCarried(p: Progress, n: nat, rec: Record, orderTable: seq<OrderRow>)
    requires p.failure.None? && n <= |p.pending|
    requires Step(p, rec, orderTable).failure.None?
    ensures Carried(Step(p, rec, orderTable), n, |p.pending| - n, rec, orderTable)
  {
    StepOutcome(p, rec, orderTable);
  }

  /** In a batch that raises nothing, every record holds of the result. */
  lemma {:induction false} IngestRecord(start: Progress, records: seq<Record>, orderTable: seq<OrderRow>, k: nat)
    requires start.failure.None? && k < |records|
    requires Ingest(start, records, orderTable).failure.None?
    ensures Carried(Ingest(start, records, orderTable), |start.pending|, k, records[k], orderTable)
  {
    var init := records[..|records| - 1];
    var last := records[|records| - 1];
    var p := Ingest(start, init, orderTable);
    assert Ingest(start, records, orderTable) == Step(p, last, orderTable);
    NoFailureBefore(start, records, orderTable);
    IngestPendingLength(start, init, orderTable);
    if k < |init| {
      IngestRecord(start, init, orderTable, k);
      assert init[k] == records[k];
      StepGrows(p, last, orderTable);
      CarryOver(p, Step(p, last, orderTable), |start.pending|, k, records[k], orderTable);
    } else {
      assert k == |init| && records[k] == last && k == |p.pending| - |start.pending|;
      LastCarried(p, |start.pending|, last, orderTable);
    }
  }

  /**
   * A batch that raises nothing collects one order per record, in record order,
   * none of them with an id in the `orders` table, and leaves every record's
   * user and products in the tables.
   */
  lemma IngestSuccess(start: Progress, records: seq<Record>, orderTable: seq<OrderRow>)
    requires start.failure.None?
    ensures var run := Ingest(start, records, orderTable);
            run.failure.None? ==>
              && |run.pending| == |start.pending| + |records|
              && run.pending[..|start.pending|] == start.pending
              && forall k :: 0 <= k < |records| ==>
                   && WellFormed(records[k]) && records[k].id !in OrderIds(orderTable)
                   && run.pending[|start.pending| + k] == OrderOf(records[k])
                   && records[k].user.id in UserIds(run.users)
                   && RecordIdSet(records[k].products) <= ProductIds(run.products)
  {
    IngestPendingLength(start, records, orderTable);
    if Ingest(start, records, orderTable).failure.None? {
      forall k | 0 <= k < |records|
        ensures Carried(Ingest(start, records, orderTable), |start.pending|, k, records[k], orderTable)
      {
        IngestRecord(start, records, orderTable, k);
      }
    }
  }

  /**
   * The batch raises `ConflictError` only for the id of one of its records that
   * the `orders` table holds already; orders repeated within the batch are not
   * checked against each other.
   */
  lemma {:induction false} IngestConflict(start: Progress, records: seq<Record>, orderTable: seq<OrderRow>, x: int)
    requires start.failure.None?
    ensures Ingest(start, records, orderTable).failure == Some(ConflictError(x)) ==>
              x in OrderIds(orderTable) && exists k :: 0 <= k < |records| && records[k].id == x
  {
    if records != [] {
      var init := records[..|records| - 1];
      var last := records[|records| - 1];
      var p := Ingest(start, init, orderTable);
      IngestConflict(start, init, orderTable, x);
      if p.failure.None? {
        StepOutcome(p, last, orderTable);
      } else if p.failure == Some(ConflictError(x)) {
        var k :| 0 <= k < |init| && init[k].id == x;
        assert records[k] == init[k];
      }
    }
  }

  /**
   * For a batch of well-formed records, it goes through exactly when none of
   * their ids is in the `orders` table.
   */
  lemma IngestSucceedsIff(start: Progress, records: seq<Record>, orderTable: seq<OrderRow>)
    requires start.failure.None?
    requires forall k :: 0 <= k < |records| ==> WellFormed(records[k])
    ensures Ingest(start, records, orderTable).failure.None? <==>
              forall k :: 0 <= k < |records| ==> records[k].id !in OrderIds(orderTable)
  {
    if Ingest(start, records, orderTable).failure.None? {
      IngestSuccess(start, records, orderTable);
    }
    if forall k :: 0 <= k < |records| ==> records[k].id !in OrderIds(orderTable) {
      IngestFresh(start, records, orderTable);
    }
  }

  /** A batch of well-formed records with unstored ids raises nothing. */
  lemma {:induction false} IngestFresh(start: Progress, records: seq<Record>, orderTable: seq<OrderRow>)
    requires start.failure.None?
    requires forall k :: 0 <= k < |records| ==> WellFormed(records[k]) && records[k].id !in OrderIds(orderTable)
    ensures Ingest(start, records, orderTable).failure.None?
  {
    if records != [] {
      var init := records[..|records| - 1];
      assert forall k :: 0 <= k < |init| ==> init[k] == records[k];
      IngestFresh(start, init, orderTable);
      StepFresh(Ingest(start, init, orderTable), records[|records| - 1], orderTable);
    }
  }

  /** A well-formed record with an unstored id goes through a step. */
  lemma StepFresh(p: Progress, rec: Record, orderTable: seq<OrderRow>)
    requires p.failure.None? && WellFormed(rec) && rec.id !in OrderIds(orderTable)
    ensures Step(p, rec, orderTable).failure.None?
  {
    StepOutcome(p, rec, orderTable);
  }

  /**
   * What one record leaves stored, whatever it raises: its user once the user
   * can be constructed, since the user is saved before anything else is
   * checked, and its products once none of its ids is negative, since they are
   * saved before the order is built and checked against the `orders` table.
   */
  lemma StepStores(p: Progress, rec: Record, orderTable: seq<OrderRow>)
    requires p.failure.None?
    ensures var q := Step(p, rec, orderTable);
            && (rec.user.id >= 0 ==> rec.user.id in UserIds(q.users))
            && (WellFormed(rec) ==> RecordIdSet(rec.products) <= ProductIds(q.products))
  {
    if rec.user.id >= 0 {
      StepTables(p, rec, orderTable);
      SaveUserGrows(p.users, User(rec.user.id, rec.user.name, rec.user.city));
      SaveProductsFacts(p.products, rec.products);
    }
  }

  /**
   * There is no rollback: when a record raises, the users and products of the
   * records before it have been saved all the same.
   */
  lemma IngestKeepsEarlierRecords(start: Progress, records: seq<Record>, orderTable: seq<OrderRow>, i: nat)
    requires start.failure.None?
    requires i <= |records| && Ingest(start, records[..i], orderTable).failure.None?
    ensures var run := Ingest(start, records, orderTable);
            forall k :: 0 <= k < i ==>
              && records[k].user.id in UserIds(run.users)
              && RecordIdSet(records[k].products) <= ProductIds(run.products)
  {
    var pre := records[..i];
    IngestSuccess(start, pre, orderTable);
    var p := Ingest(start, pre, orderTable);
    var run := Ingest(start, records, orderTable);
    WholeExtendsPrefix(start, records, orderTable, i);
    UserIdsGrow(p.users, run.users);
    ProductIdsGrow(p.products, run.products);
    forall k | 0 <= k < i
      ensures records[k].user.id in UserIds(run.users) && RecordIdSet(records[k].products) <= ProductIds(run.products)
    {
      assert pre[k] == records[k];
    }
  }

  /**
   * A `ConflictError` raised by record `i` ends the batch with that error, and
   * the users and products of every record up to and including record `i` stay
   * stored, because they were saved before its id was checked.
   */
  lemma ConflictKeepsSaved(start: Progress, records: seq<Record>, orderTable: seq<OrderRow>, i: nat)
    requires start.failure.None?
    requires i < |records| && Ingest(start, records[..i], orderTable).failure.None?
    requires Ingest(start, records[..i + 1], orderTable).failure.Some?
    requires Ingest(start, records[..i + 1], orderTable).failure.value.ConflictError?
    ensures var run := Ingest(start, records, orderTable);
            && run.failure == Some(ConflictError(records[i].id))
            && records[i].id in OrderIds(orderTable)
            && forall k :: 0 <= k <= i ==>
                 && records[k].user.id in UserIds(run.users)
                 && RecordIdSet(records[k].products) <= ProductIds(run.products)
  {
    var p := Ingest(start, records[..i], orderTable);
    assert records[..i + 1][..i] == records[..i];
    var q := Step(p, records[i], orderTable);
    assert Ingest(start, records[..i + 1], orderTable) == q;
    StepOutcome(p, records[i], orderTable);
    StepStores(p, records[i], orderTable);
    IngestStops(start, records, orderTable, i + 1);
    IngestKeepsEarlierRecords(start, records, orderTable, i);
  }

  /** Processing more records only extends the tables. */
  lemma {:induction false} WholeExtendsPrefix(start: Progress, records: seq<Record>, orderTable: seq<OrderRow>, i: nat)
    requires i <= |records|
    ensures Ingest(start, records[..i], orderTable).users <= Ingest(start, records, orderTable).users
    ensures Ingest(start, records[..i], orderTable).products <= Ingest(start, records, orderTable).products
    decreases |records| - i
  {
    if i < |records| {
      assert records[..i + 1][..i] == records[..i];
      StepGrows(Ingest(start, records[..i], orderTable), records[i], orderTable);
      WholeExtendsPrefix(start, records, orderTable, i + 1);
    } else {
      assert records[..i] == records;
    }
  }

  /**
   * Ids repeated within a batch are not refused: a batch of well-formed records
   * none of whose ids is stored collects one order per record with that record's id,
   * whether or not two records share an id.
   */
  lemma BatchIds(start: Progress, records: seq<Record>, orderTable: seq<OrderRow>)
    requires start.failure.None?
    requires forall k :: 0 <= k < |records| ==> WellFormed(records[k]) && records[k].id !in OrderIds(orderTable)
    ensures var run := Ingest(start, records, orderTable);
            && run.failure.None? && |run.pending| == |start.pending| + |records|
            && forall k :: 0 <= k < |records| ==> run.pending[|start.pending| + k].identifier == records[k].id
  {
    IngestSucceedsIff(start, records, orderTable);
    IngestSuccess(start, records, orderTable);
    var run := Ingest(start, records, orderTable);
    forall k | 0 <= k < |records|
      ensures run.pending[|start.pending| + k].identifier == records[k].id
    {
      assert Carried(run, |start.pending|, k, records[k], orderTable);
    }
  }

  /**
   * Two records with one order id in one batch, against an empty `orders` table:
   * no conflict is raised, and two orders with that id are collected.
   */
  lemma DuplicateWithinBatch(users: seq<UserRow>, products: seq<ProductRow>)
    ensures var rec := Record(5, 100, UserRecord(1, "name", "city"), [ProductRecord(2, "product", 10)]);
            var run := Ingest(Start(users, products), [rec, rec], []);
            && run.failure.None?
            && |run.pending| == 2 && run.pending[0].identifier == 5 && run.pending[1].identifier == 5
  {
    var rec := Record(5, 100, UserRecord(1, "name", "city"), [ProductRecord(2, "product", 10)]);
    assert NonNegativeIds(rec.products[..0]);
    assert WellFormed(rec);
    var records := [rec, rec];
    assert forall k :: 0 <= k < |records| ==> records[k] == rec;
    BatchIds(Start(users, products), records, []);
  }
}
