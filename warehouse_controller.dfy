/**
 * WarehouseController.AddProductToWarehouse: the HTTP endpoint. It rejects a
 * non-positive amount before touching the store, then runs its own inlined
 * copy of the fulfilment transaction and answers with a status code and a
 * body. Its contract says that this copy behaves as DbService's transaction
 * (DbService.Run) does, with each outcome mapped to a response by Respond.
 */
module WarehouseController {
  import opened Store
  import opened DbService

  /** A response body: a message, or the Id of the new Product_Warehouse row. */
  datatype Body = Message(text: string) | RecordId(id: int)

  datatype Response = Response(status: int, body: Body)

  const AmountNotPositive: Response := Response(400, Message("Amount must be greater than 0"))

  const ErrorPrefix: string := "An error occurred: "

  /**
   * The response for each outcome of the transaction: 200 with the new Id on
   * success, 404 for a missing product, warehouse or order, 409 for an order
   * already fulfilled, 500 with the exception's message for anything else.
   */
  function Respond(o: Outcome): (r: Response)
    ensures r.status == 200 <==> o.Ok?
    ensures r.status == 200 ==> r.body == RecordId(o.id)
    ensures r.status == 404 <==> o.ProductNotFound? || o.WarehouseNotFound? || o.NoMatchingOrder?
    ensures r.status == 409 <==> o.AlreadyFulfilled?
    ensures r.status == 500 <==> o.StoreError?
    ensures r.status in {200, 404, 409, 500}
    ensures r.status != 200 ==> r.body.Message?
  {
    match o
    case Ok(id) => Response(200, RecordId(id))
    case ProductNotFound => Response(404, Message("Product not found"))
    case WarehouseNotFound => Response(404, Message("Warehouse not found"))
    case NoMatchingOrder => Response(404, Message("No valid order found for this product"))
    case AlreadyFulfilled => Response(409, Message("Order is already fulfilled"))
    case StoreError(m) => Response(500, Message(ErrorPrefix + m))
  }

  /**
   * The endpoint as the controller executes it. A non-positive amount gets
   * 400 and the store is not touched. Otherwise the response is Respond of
   * the outcome DbService's transaction has on the same store, request and
   * TOP 1 row, and the store ends where that transaction leaves it.
   */
  method AddProductToWarehouse(db: Database, request: Request, clock: Clock, fault: Fault)
    returns (resp: Response, ghost pick: Option<int>)
    requires db.Valid()
    modifies db
    ensures db.Valid()
    ensures request.amount <= 0 ==> resp == AmountNotPositive && unchanged(db)
    ensures request.amount > 0 ==> IsTopOne(old(db.State()).orders, request, pick)
    ensures request.amount > 0 ==>
      var e := Run(old(db.State()), request, pick, clock, fault);
      resp == Respond(e.outcome) && db.State() == e.after
  {
    if request.amount <= 0 {
      return AmountNotPositive, None;
    }

    pick := AnyTopOne(db.orders, request);
    var transaction := db.State();

    if fault.At(ProductQuery) {
      db.Rollback(transaction);
      return Response(500, Message(ErrorPrefix + fault.message)), pick;
    }
    var productExists := request.idProduct in db.products;
    if !productExists {
      db.Rollback(transaction);
      return Response(404, Message("Product not found")), pick;
    }

    if fault.At(WarehouseQuery) {
      db.Rollback(transaction);
      return Response(500, Message(ErrorPrefix + fault.message)), pick;
    }
    var warehouseExists := request.idWarehouse in db.warehouses;
    if !warehouseExists {
      db.Rollback(transaction);
      return Response(404, Message("Warehouse not found")), pick;
    }

    // @CreatedAt is a DATETIME parameter: a value outside its range throws
    // when the order query is executed, and the catch answers 500.
    if !InSqlDateTimeRange(request.createdAt) {
      db.Rollback(transaction);
      return Response(500, Message(ErrorPrefix + SqlDateTimeOverflow)), pick;
    }
    if fault.At(OrderQuery) {
      db.Rollback(transaction);
      return Response(500, Message(ErrorPrefix + fault.message)), pick;
    }
    var top := db.SelectTopOrder(request);
    pick := top;
    if top.None? {
      db.Rollback(transaction);
      return Response(404, Message("No valid order found for this product")), pick;
    }
    var orderId := top.value;

    if fault.At(FulfilledQuery) {
      db.Rollback(transaction);
      return Response(500, Message(ErrorPrefix + fault.message)), pick;
    }
    var isOrderFulfilled := Referenced(db.records, orderId);
    if isOrderFulfilled {
      db.Rollback(transaction);
      return Response(409, Message("Order is already fulfilled")), pick;
    }

    if fault.At(PriceQuery) {
      db.Rollback(transaction);
      return Response(500, Message(ErrorPrefix + fault.message)), pick;
    }
    // A missing product reads as 0, as Convert.ToDecimal(null) does.
    var productPrice := if request.idProduct in db.products then db.products[request.idProduct] else 0;

    if fault.At(OrderUpdate) {
      db.Rollback(transaction);
      return Response(500, Message(ErrorPrefix + fault.message)), pick;
    }
    db.SetFulfilledAt(orderId, clock.updateTime);

    if fault.At(RecordInsert) {
      db.Rollback(transaction);
      return Response(500, Message(ErrorPrefix + fault.message)), pick;
    }
    var productWarehouseId := db.Insert(Record(request.idWarehouse, request.idProduct, orderId, request.amount,
                                               productPrice * request.amount, clock.insertTime));
    resp := Response(200, RecordId(productWarehouseId));
  }

  /**
   * The controller's error bodies are the messages of the exceptions
   * DbService creates at the same failed check; a store failure is prefixed.
   */
  lemma BodiesCarryServiceMessages(o: Outcome)
    requires !o.Ok?
    ensures !o.StoreError? ==> Respond(o).body == Message(ErrorMessage(o))
    ensures o.StoreError? ==> Respond(o).body == Message(ErrorPrefix + ErrorMessage(o))
  {
  }

  /** Different outcomes get different responses: a client can tell every outcome apart. */
  lemma {:induction false} RespondIsInjective(o1: Outcome, o2: Outcome)
    requires Respond(o1) == Respond(o2)
    ensures o1 == o2
  {
    if o1.StoreError? && o2.StoreError? {
      var b1 := ErrorPrefix + o1.message;
      var b2 := ErrorPrefix + o2.message;
      assert b1 == b2;
      assert o1.message == b1[|ErrorPrefix|..];
      assert o2.message == b2[|ErrorPrefix|..];
    }
  }

  /** The 400 answer is never produced by the transaction: it only comes from the amount check. */
  lemma BadRequestOnlyFromAmountCheck(o: Outcome)
    ensures Respond(o) != AmountNotPositive
  {
  }

  /**
   * A request with a positive amount whose CreatedAt was left out binds to
   * DateTime.MinValue, which is before 1753: once product and warehouse are
   * found, it is answered 500 with the overflow message, and the store is
   * left as it was.
   */
  lemma MissingCreatedAtIsServerError(s: Tables, request: Request, pick: Option<int>, clock: Clock)
    requires request.amount > 0 && request.createdAt == 0 && IsTopOne(s.orders, request, pick)
    requires request.idProduct in s.products && request.idWarehouse in s.warehouses
    ensures Respond(Run(s, request, pick, clock, NoFault).outcome) == Response(500, Message(ErrorPrefix + SqlDateTimeOverflow))
    ensures Run(s, request, pick, clock, NoFault).after == s
  {
  }

  /**
   * Repeating a successful request that matches the same order is answered
   * 409 "Order is already fulfilled", and the store is not changed again.
   */
  lemma RepeatedRequestIsConflict(s: Tables, request: Request, idOrder: int, first: Clock, second: Clock)
    requires WellFormed(s) && request.amount > 0 && IsTopOne(s.orders, request, Some(idOrder))
    requires Respond(Run(s, request, Some(idOrder), first, NoFault).outcome).status == 200
    ensures var t := Run(s, request, Some(idOrder), first, NoFault).after;
      && IsTopOne(t.orders, request, Some(idOrder))
      && Respond(Run(t, request, Some(idOrder), second, NoFault).outcome) == Response(409, Message("Order is already fulfilled"))
      && Run(t, request, Some(idOrder), second, NoFault).after == t
  {
    SecondRunOnSameOrderConflicts(s, request, idOrder, first, second);
  }
}
