/**
 * DbService.AddProductToWarehouseAsync: the restock fulfilment transaction.
 *
 * Run is the specification: what one execution returns and what the store
 * holds afterwards, given the row the TOP 1 order query returned (`pick`),
 * the two clock readings and the statement that throws, if any. The method
 * executes the statements one by one against a Database and is proved to
 * behave as Run says; the lemmas state what Run promises.
 */
module DbService {
  import opened Store

  /** How a run ends: the new Product_Warehouse Id, or the error it throws. */
  datatype Outcome =
    | Ok(id: int)
    | ProductNotFound
    | WarehouseNotFound
    | NoMatchingOrder
    | AlreadyFulfilled
    | StoreError(message: string)

  /** The whole effect of one run: its outcome and the store after it. */
  datatype Effect = Effect(outcome: Outcome, after: Tables)

  /** The message of the exception created at the failed check, or the store's own message. */
  function ErrorMessage(o: Outcome): (m: string)
    requires !o.Ok?
  {
    match o
    case ProductNotFound => "Product not found"
    case WarehouseNotFound => "Warehouse not found"
    case NoMatchingOrder => "No valid order found for this product"
    case AlreadyFulfilled => "Order is already fulfilled"
    case StoreError(m) => m
  }

  /** The store after a successful run: the order is marked fulfilled and the record is added. */
  function Fulfil(s: Tables, idOrder: int, rec: Record, at: int): (t: Tables)
    requires idOrder in s.orders
  {
    s.(orders := s.orders[idOrder := s.orders[idOrder].(fulfilledAt := Some(at))],
       records := s.records[s.identity := rec],
       identity := s.identity + 1)
  }

  /**
   * One run of the transaction on store s. Every failure rolls back, so the
   * store after a failed run is s itself.
   */
  function Run(s: Tables, req: Request, pick: Option<int>, clock: Clock, fault: Fault): (e: Effect)
    requires IsTopOne(s.orders, req, pick)
  {
    if fault.At(ProductQuery) then Effect(StoreError(fault.message), s)
    else if req.idProduct !in s.products then Effect(ProductNotFound, s)
    else if fault.At(WarehouseQuery) then Effect(StoreError(fault.message), s)
    else if req.idWarehouse !in s.warehouses then Effect(WarehouseNotFound, s)
    else if !InSqlDateTimeRange(req.createdAt) then Effect(StoreError(SqlDateTimeOverflow), s)
    else if fault.At(OrderQuery) then Effect(StoreError(fault.message), s)
    else if pick.None? then Effect(NoMatchingOrder, s)
    else if fault.At(FulfilledQuery) then Effect(StoreError(fault.message), s)
    else if Referenced(s.records, pick.value) then Effect(AlreadyFulfilled, s)
    else if fault.FailAt? then Effect(StoreError(fault.message), s)
    else
      var price := s.products[req.idProduct] * req.amount;
      var rec := Record(req.idWarehouse, req.idProduct, pick.value, req.amount, price, clock.insertTime);
      Effect(Ok(s.identity), Fulfil(s, pick.value, rec, clock.updateTime))
  }

  /**
   * The transaction as DbService executes it: each statement in turn, an
   * explicit rollback before every error, a commit at the end. `pick` is the
   * row the TOP 1 query returned (or could have returned, when the run stops
   * before issuing it).
   */
  method AddProductToWarehouseAsync(db: Database, idProduct: int, idWarehouse: int, amount: int, createdAt: int,
                                    clock: Clock, fault: Fault)
    returns (outcome: Outcome, ghost pick: Option<int>)
    requires db.Valid()
    modifies db
    ensures db.Valid()
    ensures IsTopOne(old(db.State()).orders, Request(idProduct, idWarehouse, amount, createdAt), pick)
    ensures Effect(outcome, db.State()) == Run(old(db.State()), Request(idProduct, idWarehouse, amount, createdAt), pick, clock, fault)
    ensures !outcome.Ok? ==> db.State() == old(db.State())
  {
    ghost var req := Request(idProduct, idWarehouse, amount, createdAt);
    pick := AnyTopOne(db.orders, req);
    var transaction := db.State();

    if fault.At(ProductQuery) {
      db.Rollback(transaction);
      return StoreError(fault.message), pick;
    }
    var productExists := idProduct in db.products;
    if !productExists {
      db.Rollback(transaction);
      return ProductNotFound, pick;
    }

    if fault.At(WarehouseQuery) {
      db.Rollback(transaction);
      return StoreError(fault.message), pick;
    }
    var warehouseExists := idWarehouse in db.warehouses;
    if !warehouseExists {
      db.Rollback(transaction);
      return WarehouseNotFound, pick;
    }

    // @CreatedAt is a DATETIME parameter: a value outside its range throws
    // when the order query is executed.
    if !InSqlDateTimeRange(createdAt) {
      db.Rollback(transaction);
      return StoreError(SqlDateTimeOverflow), pick;
    }
    if fault.At(OrderQuery) {
      db.Rollback(transaction);
      return StoreError(fault.message), pick;
    }
    var top := db.SelectTopOrder(Request(idProduct, idWarehouse, amount, createdAt));
    pick := top;
    if top.None? {
      db.Rollback(transaction);
      return NoMatchingOrder, pick;
    }
    var orderId := top.value;

    if fault.At(FulfilledQuery) {
      db.Rollback(transaction);
      return StoreError(fault.message), pick;
    }
    var isOrderFulfilled := Referenced(db.records, orderId);
    if isOrderFulfilled {
      db.Rollback(transaction);
      return AlreadyFulfilled, pick;
    }

    if fault.At(PriceQuery) {
      db.Rollback(transaction);
      return StoreError(fault.message), pick;
    }
    // A missing product reads as 0, as Convert.ToDecimal(null) does.
    var productPrice := if idProduct in db.products then db.products[idProduct] else 0;

    if fault.At(OrderUpdate) {
      db.Rollback(transaction);
      return StoreError(fault.message), pick;
    }
    db.SetFulfilledAt(orderId, clock.updateTime);

    if fault.At(RecordInsert) {
      // The UPDATE has already changed [Order]: the rollback undoes it.
      db.Rollback(transaction);
      return StoreError(fault.message), pick;
    }
    var productWarehouseId := db.Insert(Record(idWarehouse, idProduct, orderId, amount, productPrice * amount, clock.insertTime));
    outcome := Ok(productWarehouseId);
  }

  // ---------------------------------------------------------------------------
  // Properties of a run
  // ---------------------------------------------------------------------------

  /** A missing product is reported as such, whatever else is missing too. */
  lemma ProductNotFoundWhenProductMissing(s: Tables, req: Request, pick: Option<int>, clock: Clock, fault: Fault)
    requires IsTopOne(s.orders, req, pick)
    ensures Run(s, req, pick, clock, fault).outcome == ProductNotFound
        <==> !fault.At(ProductQuery) && req.idProduct !in s.products
  {
  }

  /** A missing warehouse is reported only once the product is known to exist. */
  lemma WarehouseNotFoundWhenWarehouseMissing(s: Tables, req: Request, pick: Option<int>, clock: Clock, fault: Fault)
    requires IsTopOne(s.orders, req, pick)
    ensures Run(s, req, pick, clock, fault).outcome == WarehouseNotFound
        <==> !fault.At(ProductQuery) && !fault.At(WarehouseQuery)
             && req.idProduct in s.products && req.idWarehouse !in s.warehouses
  {
  }

  /** "No valid order" is reported exactly when product and warehouse exist and no order qualifies. */
  lemma NoMatchingOrderWhenNoneQualifies(s: Tables, req: Request, pick: Option<int>, clock: Clock, fault: Fault)
    requires IsTopOne(s.orders, req, pick)
    ensures Run(s, req, pick, clock, fault).outcome == NoMatchingOrder
        <==> !fault.At(ProductQuery) && !fault.At(WarehouseQuery) && !fault.At(OrderQuery)
             && req.idProduct in s.products && req.idWarehouse in s.warehouses
             && InSqlDateTimeRange(req.createdAt)
             && forall oid :: oid in s.orders ==> !Qualifies(s.orders[oid], req)
  {
  }

  /**
   * "Already fulfilled" is reported exactly when all earlier checks pass and
   * a Product_Warehouse row references the matched order.
   */
  lemma AlreadyFulfilledWhenReferenced(s: Tables, req: Request, pick: Option<int>, clock: Clock, fault: Fault)
    requires IsTopOne(s.orders, req, pick)
    ensures Run(s, req, pick, clock, fault).outcome == AlreadyFulfilled
        <==> !fault.At(ProductQuery) && !fault.At(WarehouseQuery) && !fault.At(OrderQuery) && !fault.At(FulfilledQuery)
             && req.idProduct in s.products && req.idWarehouse in s.warehouses
             && InSqlDateTimeRange(req.createdAt)
             && pick.Some? && Referenced(s.records, pick.value)
  {
  }

  /** The order a run fulfils, or finds already fulfilled, qualifies: same product, same amount, strictly earlier. */
  lemma MatchedOrderQualifies(s: Tables, req: Request, pick: Option<int>, clock: Clock, fault: Fault)
    requires IsTopOne(s.orders, req, pick)
    requires Run(s, req, pick, clock, fault).outcome.Ok? || Run(s, req, pick, clock, fault).outcome.AlreadyFulfilled?
    ensures pick.Some? && pick.value in s.orders
    ensures s.orders[pick.value].idProduct == req.idProduct
    ensures s.orders[pick.value].amount == req.amount
    ensures s.orders[pick.value].createdAt < req.createdAt
  {
  }

  /** A run succeeds exactly when no statement fails and every check passes. */
  lemma SucceedsWhenAllChecksPass(s: Tables, req: Request, pick: Option<int>, clock: Clock, fault: Fault)
    requires IsTopOne(s.orders, req, pick)
    ensures Run(s, req, pick, clock, fault).outcome.Ok?
        <==> fault.NoFault? && req.idProduct in s.products && req.idWarehouse in s.warehouses
             && InSqlDateTimeRange(req.createdAt)
             && pick.Some? && !Referenced(s.records, pick.value)
  {
  }

  /**
   * A request timestamp outside the DATETIME range makes the order query
   * throw once product and warehouse are found: the run fails with the
   * overflow message and the store is left as it was.
   */
  lemma CreatedAtOutOfRangeFailsOrderQuery(s: Tables, req: Request, pick: Option<int>, clock: Clock, fault: Fault)
    requires IsTopOne(s.orders, req, pick)
    requires !fault.At(ProductQuery) && !fault.At(WarehouseQuery)
    requires req.idProduct in s.products && req.idWarehouse in s.warehouses
    ensures !InSqlDateTimeRange(req.createdAt) ==> Run(s, req, pick, clock, fault) == Effect(StoreError(SqlDateTimeOverflow), s)
    ensures InSqlDateTimeRange(req.createdAt) && fault.NoFault? ==> !Run(s, req, pick, clock, fault).outcome.StoreError?
  {
  }

  /**
   * On success exactly one Product_Warehouse row is added, under a fresh Id
   * that is the one returned, holding the request's warehouse, product and
   * amount, the matched order and the price unit price * amount.
   */
  lemma SuccessAddsOneRecord(s: Tables, req: Request, pick: Option<int>, clock: Clock, fault: Fault)
    requires WellFormed(s) && IsTopOne(s.orders, req, pick)
    requires Run(s, req, pick, clock, fault).outcome.Ok?
    ensures var e := Run(s, req, pick, clock, fault);
      && e.outcome.id !in s.records
      && e.after.records.Keys == s.records.Keys + {e.outcome.id}
      && e.after.records[e.outcome.id] == Record(req.idWarehouse, req.idProduct, pick.value, req.amount,
                                                 s.products[req.idProduct] * req.amount, clock.insertTime)
      && forall id :: id in s.records ==> e.after.records[id] == s.records[id]
  {
  }

  /**
   * On success only the matched order changes, and only in FulfilledAt, which
   * becomes the clock's reading; products and warehouses are untouched.
   */
  lemma SuccessTouchesOnlyMatchedOrder(s: Tables, req: Request, pick: Option<int>, clock: Clock, fault: Fault)
    requires IsTopOne(s.orders, req, pick)
    requires Run(s, req, pick, clock, fault).outcome.Ok?
    ensures var t := Run(s, req, pick, clock, fault).after;
      && t.products == s.products && t.warehouses == s.warehouses
      && t.orders.Keys == s.orders.Keys
      && t.orders[pick.value] == s.orders[pick.value].(fulfilledAt := Some(clock.updateTime))
      && forall oid :: oid in s.orders && oid != pick.value ==> t.orders[oid] == s.orders[oid]
  {
  }

  /** Atomicity: a run that fails, at whatever statement, leaves the store as it found it. */
  lemma FailureLeavesStoreUnchanged(s: Tables, req: Request, pick: Option<int>, clock: Clock, fault: Fault)
    requires IsTopOne(s.orders, req, pick)
    requires !Run(s, req, pick, clock, fault).outcome.Ok?
    ensures Run(s, req, pick, clock, fault).after == s
  {
  }

  /** Every run keeps the identity seed above every used Id. */
  lemma RunPreservesWellFormed(s: Tables, req: Request, pick: Option<int>, clock: Clock, fault: Fault)
    requires WellFormed(s) && IsTopOne(s.orders, req, pick)
    ensures WellFormed(Run(s, req, pick, clock, fault).after)
  {
  }

  /** The already-fulfilled check keeps Product_Warehouse at one row per order. */
  lemma RunPreservesOneRecordPerOrder(s: Tables, req: Request, pick: Option<int>, clock: Clock, fault: Fault)
    requires WellFormed(s) && OneRecordPerOrder(s.records) && IsTopOne(s.orders, req, pick)
    ensures OneRecordPerOrder(Run(s, req, pick, clock, fault).after.records)
  {
  }

  /**
   * A run keeps FulfilledAt in step with Product_Warehouse: it sets the
   * matched order's FulfilledAt exactly when it adds the row referencing it.
   */
  lemma RunPreservesFulfilmentConsistency(s: Tables, req: Request, pick: Option<int>, clock: Clock, fault: Fault)
    requires WellFormed(s) && FulfilmentConsistent(s) && IsTopOne(s.orders, req, pick)
    ensures FulfilmentConsistent(Run(s, req, pick, clock, fault).after)
  {
    var e := Run(s, req, pick, clock, fault);
    if e.outcome.Ok? {
      var t := e.after;
      forall oid | oid in t.orders
        ensures t.orders[oid].fulfilledAt.Some? <==> Referenced(t.records, oid)
      {
        assert t.records[s.identity].idOrder == pick.value;
        if oid != pick.value {
          if Referenced(t.records, oid) {
            var id :| id in t.records && t.records[id].idOrder == oid;
            assert id in s.records && s.records[id].idOrder == oid;
          }
          if Referenced(s.records, oid) {
            var id :| id in s.records && s.records[id].idOrder == oid;
            assert id in t.records && t.records[id].idOrder == oid;
          }
        }
      }
    }
  }

  /**
   * A second run with the same request that matches the same order, right
   * after a successful one, reports "already fulfilled" and adds nothing.
   */
  lemma {:induction false} SecondRunOnSameOrderConflicts(s: Tables, req: Request, idOrder: int, first: Clock, second: Clock)
    requires WellFormed(s) && IsTopOne(s.orders, req, Some(idOrder))
    requires Run(s, req, Some(idOrder), first, NoFault).outcome.Ok?
    ensures var t := Run(s, req, Some(idOrder), first, NoFault).after;
      && IsTopOne(t.orders, req, Some(idOrder))
      && Run(t, req, Some(idOrder), second, NoFault) == Effect(AlreadyFulfilled, t)
  {
    var t := Run(s, req, Some(idOrder), first, NoFault).after;
    assert t.records[s.identity].idOrder == idOrder;
  }

  /** Midnight on four days of 2024, in seconds since 0001-01-01 00:00:00. */
  const Jan1st2024: int := 63839664000
  const Jan5th2024: int := 63840009600
  const Jan10th2024: int := 63840441600
  const Feb1st2024: int := 63842342400

  // ---------------------------------------------------------------------------
  // TOP 1 has no ORDER BY: the choice of row decides the outcome
  // ---------------------------------------------------------------------------

  /** Two orders for the same product and amount; order 7 already has its Product_Warehouse row. */
  function TwoCandidateStore(): (t: Tables) {
    Tables(map[1 := 1000], {5},
           map[7 := Order(1, 3, Jan1st2024, Some(Jan10th2024)), 8 := Order(1, 3, Jan5th2024, None)],
           map[40 := Record(5, 1, 7, 3, 3000, Jan10th2024)], 41)
  }

  /**
   * With two qualifying orders, one already fulfilled, the same request on
   * the same store may be rejected as "already fulfilled" or succeed,
   * depending only on which row TOP 1 returns.
   */
  lemma TopOneChoiceDecidesOutcome(clock: Clock)
    ensures IsTopOne(TwoCandidateStore().orders, Request(1, 5, 3, Feb1st2024), Some(7))
    ensures IsTopOne(TwoCandidateStore().orders, Request(1, 5, 3, Feb1st2024), Some(8))
    ensures Run(TwoCandidateStore(), Request(1, 5, 3, Feb1st2024), Some(7), clock, NoFault).outcome == AlreadyFulfilled
    ensures Run(TwoCandidateStore(), Request(1, 5, 3, Feb1st2024), Some(8), clock, NoFault).outcome == Ok(41)
  {
    assert TwoCandidateStore().records[40].idOrder == 7;
  }

  // ---------------------------------------------------------------------------
  // Worked examples
  // ---------------------------------------------------------------------------

  /** Product 1 at 10.00, warehouse 5, order 7 for three units of product 1, not yet fulfilled. */
  function ExampleStore(): (t: Tables) {
    Tables(map[1 := 1000], {5}, map[7 := Order(1, 3, Jan1st2024, None)], map[], 1)
  }

  /** The restock request of the examples: three units of product 1 into warehouse 5. */
  function ExampleRequest(): (r: Request) {
    Request(1, 5, 3, Feb1st2024)
  }

  /** The request fulfils order 7 and records a price of 30.00. */
  lemma ExampleFulfilsOrder(pick: Option<int>, clock: Clock)
    requires IsTopOne(ExampleStore().orders, ExampleRequest(), pick)
    ensures pick == Some(7)
    ensures var e := Run(ExampleStore(), ExampleRequest(), pick, clock, NoFault);
      && e.outcome == Ok(1)
      && e.after.records == map[1 := Record(5, 1, 7, 3, 3000, clock.insertTime)]
      && e.after.orders[7].fulfilledAt == Some(clock.updateTime)
  {
    assert 7 in ExampleStore().orders && Qualifies(ExampleStore().orders[7], ExampleRequest());
  }

  /** Repeating the request right after it fulfilled order 7 conflicts and creates no second record. */
  lemma ExampleRepeatConflicts(first: Clock, pick: Option<int>, second: Clock)
    requires IsTopOne(Run(ExampleStore(), ExampleRequest(), Some(7), first, NoFault).after.orders, ExampleRequest(), pick)
    ensures var t := Run(ExampleStore(), ExampleRequest(), Some(7), first, NoFault).after;
            Run(t, ExampleRequest(), pick, second, NoFault) == Effect(AlreadyFulfilled, t)
  {
    var t := Run(ExampleStore(), ExampleRequest(), Some(7), first, NoFault).after;
    assert 7 in t.orders && Qualifies(t.orders[7], ExampleRequest());
    assert pick == Some(7);
    SecondRunOnSameOrderConflicts(ExampleStore(), ExampleRequest(), 7, first, second);
  }

  /** An unknown product is reported and the store is left as it was. */
  lemma ExampleUnknownProduct(pick: Option<int>, clock: Clock)
    requires IsTopOne(ExampleStore().orders, Request(999, 5, 3, Feb1st2024), pick)
    ensures Run(ExampleStore(), Request(999, 5, 3, Feb1st2024), pick, clock, NoFault) == Effect(ProductNotFound, ExampleStore())
  {
  }
}
