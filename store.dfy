/**
 * The relational store the fulfilment transaction works on: the tables
 * Product, Warehouse, [Order] and Product_Warehouse, held in memory.
 *
 * Tables is the value of the whole store at one moment; the class Database
 * holds the same tables as fields that the transaction's UPDATE and INSERT
 * change in place, and that a rollback restores from a snapshot.
 * Timestamps are whole seconds since 0001-01-01 00:00:00, the origin of
 * .NET's DateTime (DateTime.MinValue is 0); prices are integers counted in
 * the smallest unit of the Price column.
 */
module Store {

  datatype Option<+T> = None | Some(value: T)

  /** A row of [Order]; the key of the map that holds it is its IdOrder. */
  datatype Order = Order(idProduct: int, amount: int, createdAt: int, fulfilledAt: Option<int>)

  /** A row of Product_Warehouse; the key of the map that holds it is its generated Id. */
  datatype Record = Record(idWarehouse: int, idProduct: int, idOrder: int, amount: int, price: int, createdAt: int)

  /**
   * The four tables and the identity seed of Product_Warehouse.
   * products maps IdProduct to Price; warehouses holds every IdWarehouse.
   */
  datatype Tables = Tables(
    products: map<int, int>,
    warehouses: set<int>,
    orders: map<int, Order>,
    records: map<int, Record>,
    identity: int)

  /** The body of a restock request: the fields of WarehouseRequestDto. */
  datatype Request = Request(idProduct: int, idWarehouse: int, amount: int, createdAt: int)

  /** The two readings of the clock the transaction takes: one for the UPDATE, one for the INSERT. */
  datatype Clock = Clock(updateTime: int, insertTime: int)

  /** The statements of the transaction, in the order they are executed. */
  datatype Step = ProductQuery | WarehouseQuery | OrderQuery | FulfilledQuery | PriceQuery | OrderUpdate | RecordInsert

  /** A store failure injected into one run: the statement that throws and the exception's message. */
  datatype Fault = NoFault | FailAt(step: Step, message: string) {
    predicate At(s: Step) {
      FailAt? && step == s
    }
  }

  /** 1753-01-01 00:00:00 and 9999-12-31 23:59:59: the range of the SQL DATETIME type. */
  const MinSqlDateTime: int := 55287792000
  const MaxSqlDateTime: int := 315537897599

  /** The message of the exception thrown when a DateTime parameter falls outside that range. */
  const SqlDateTimeOverflow: string :=
    "SqlDateTime overflow. Must be between 1/1/1753 12:00:00 AM and 12/31/9999 11:59:59 PM."

  /** A DateTime value that a parameter of SQL type DATETIME can carry. */
  predicate InSqlDateTimeRange(t: int) {
    MinSqlDateTime <= t <= MaxSqlDateTime
  }

  /** The identity seed is above every Id already used in Product_Warehouse. */
  predicate WellFormed(t: Tables) {
    forall id :: id in t.records ==> id < t.identity
  }

  /** The WHERE clause of the order match: same product, same amount, created strictly earlier. */
  predicate Qualifies(o: Order, req: Request) {
    o.idProduct == req.idProduct && o.amount == req.amount && o.createdAt < req.createdAt
  }

  /**
   * pick is a row that SELECT TOP 1 (with no ORDER BY) may return: none exactly
   * when no order qualifies, otherwise any one qualifying order.
   */
  ghost predicate IsTopOne(orders: map<int, Order>, req: Request, pick: Option<int>) {
    match pick
    case None => forall oid :: oid in orders ==> !Qualifies(orders[oid], req)
    case Some(oid) => oid in orders && Qualifies(orders[oid], req)
  }

  /** Some row of Product_Warehouse references the order. */
  predicate Referenced(records: map<int, Record>, idOrder: int) {
    exists id :: id in records && records[id].idOrder == idOrder
  }

  /** No two rows of Product_Warehouse reference the same order. */
  ghost predicate OneRecordPerOrder(records: map<int, Record>) {
    forall a, b :: a in records && b in records && records[a].idOrder == records[b].idOrder ==> a == b
  }

  /** An order carries a FulfilledAt exactly when a Product_Warehouse row references it. */
  ghost predicate FulfilmentConsistent(t: Tables) {
    forall oid :: oid in t.orders ==> (t.orders[oid].fulfilledAt.Some? <==> Referenced(t.records, oid))
  }

  /**
   * Some row TOP 1 may return, for the statements of a run that stop before
   * the query is issued and so never observe its choice.
   */
  ghost function AnyTopOne(orders: map<int, Order>, req: Request): (pick: Option<int>)
    ensures IsTopOne(orders, req, pick)
  {
    if exists oid :: oid in orders && Qualifies(orders[oid], req) then
      var oid :| oid in orders && Qualifies(orders[oid], req);
      Some(oid)
    else
      None
  }

  /** The store, with the tables as fields that statements change in place. */
  class Database {
    var products: map<int, int>
    var warehouses: set<int>
    var orders: map<int, Order>
    var records: map<int, Record>
    var identity: int

    ghost predicate Valid()
      reads this
    {
      WellFormed(State())
    }

    /** The current contents of the store; a transaction's snapshot is taken with it. */
    function State(): (t: Tables)
      reads this
    {
      Tables(products, warehouses, orders, records, identity)
    }

    constructor (t: Tables)
      requires WellFormed(t)
      ensures Valid() && State() == t
    {
      products, warehouses, orders, records, identity := t.products, t.warehouses, t.orders, t.records, t.identity;
    }

    /** SELECT TOP 1 IdOrder, Amount FROM [Order] WHERE ...: one qualifying order, if any. */
    method SelectTopOrder(req: Request) returns (pick: Option<int>)
      ensures IsTopOne(orders, req, pick)
    {
      if exists oid :: oid in orders && Qualifies(orders[oid], req) {
        var oid :| oid in orders && Qualifies(orders[oid], req);
        pick := Some(oid);
      } else {
        pick := None;
      }
    }

    /** UPDATE [Order] SET FulfilledAt = at WHERE IdOrder = idOrder; a missing row is left alone. */
    method SetFulfilledAt(idOrder: int, at: int)
      modifies this
      ensures idOrder in old(orders) ==> orders == old(orders)[idOrder := old(orders)[idOrder].(fulfilledAt := Some(at))]
      ensures idOrder !in old(orders) ==> orders == old(orders)
      ensures products == old(products) && warehouses == old(warehouses)
      ensures records == old(records) && identity == old(identity)
    {
      if idOrder in orders {
        orders := orders[idOrder := orders[idOrder].(fulfilledAt := Some(at))];
      }
    }

    /** INSERT INTO Product_Warehouse ...; SELECT SCOPE_IDENTITY(): adds the row under a fresh Id and returns it. */
    method Insert(rec: Record) returns (id: int)
      requires Valid()
      modifies this
      ensures Valid()
      ensures id !in old(records) && records == old(records)[id := rec]
      ensures id == old(identity) && identity == old(identity) + 1
      ensures products == old(products) && warehouses == old(warehouses) && orders == old(orders)
    {
      id := identity;
      records := records[id := rec];
      identity := identity + 1;
    }

    /** Rolls the transaction back: every table returns to the snapshot taken when it began. */
    method Rollback(snapshot: Tables)
      modifies this
      ensures State() == snapshot
    {
      products, warehouses, orders, records, identity :=
        snapshot.products, snapshot.warehouses, snapshot.orders, snapshot.records, snapshot.identity;
    }
  }
}
