# Warehouse restock fulfilment — a Dafny model

The service adds a delivered product to a warehouse by fulfilling a pending
order. A request names a product, a warehouse, an amount and a creation time.
Inside one database transaction the service:

1. checks that the product exists;
2. checks that the warehouse exists;
3. picks one order for the same product and amount, created strictly before the request;
4. refuses that order if a `Product_Warehouse` row already references it;
5. reads the unit price;
6. sets the order's `FulfilledAt`;
7. inserts a `Product_Warehouse` row priced at unit price × amount;
8. commits and returns the new row's Id.

Every failure rolls the transaction back. The same transaction appears twice
in the code base: in `DbService.AddProductToWarehouseAsync`, which throws on
failure, and inlined in `WarehouseController.AddProductToWarehouse`. The
controller also rejects a non-positive amount up front and answers with HTTP
status codes.

The model has three modules:

- `store.dfy` (`Store`): the tables `Product`, `Warehouse`, `[Order]` and
  `Product_Warehouse` as maps and a set. `Tables` is the store as one value.
  The class `Database` holds the same tables as fields. Its methods are the
  statements that change or select rows: the `TOP 1` order query, the
  `UPDATE`, the `INSERT … SELECT SCOPE_IDENTITY()` and the rollback to a
  snapshot.
- `db_service.dfy` (`DbService`): the outcome of a run, the specification
  function `Run` and the imperative method `AddProductToWarehouseAsync`. The
  method executes the statements in the source's order and is proved equal
  to `Run`. Lemmas state what `Run` promises.
- `warehouse_controller.dfy` (`WarehouseController`): the mapping `Respond`
  from outcome to status and body, and the controller's own inlined copy of
  the transaction. The controller method is proved to answer
  `Respond(Run(...).outcome)` and to leave the store as `Run` does. That
  proves the two copies agree.

How the nondeterministic and external parts are modelled:

- `SELECT TOP 1` without `ORDER BY` may return any qualifying order. The
  predicate `IsTopOne` says which rows are possible: none exactly when no
  order qualifies, and otherwise any qualifying one. Both methods return the
  row they got as a ghost out-parameter. No tie-break is invented.
  `TopOneChoiceDecidesOutcome` shows that this choice can turn a 200 into a 409.
- `DateTime.Now` is read twice: once for the `UPDATE` and once for the
  `INSERT`. Both readings are passed in as a `Clock`.
- The generated Id is the identity seed of `Product_Warehouse`, kept in the
  store. `WellFormed` says every used Id lies below it.
- A store failure is a `Fault` parameter. It names the statement that throws
  and the exception's message. This covers "any other failure", including an
  `INSERT` that fails after the `UPDATE` has already run.
- Prices are integers in the smallest unit of the `Price` column, so
  `unit price × amount` is exact. Timestamps are whole seconds since
  0001-01-01 00:00:00, the origin of .NET's `DateTime`.
- The request's `CreatedAt` is sent as a SQL `DATETIME` parameter. A value
  before 1753-01-01 or after 9999-12-31 makes the order query throw an
  overflow error. A request that leaves `CreatedAt` out carries
  `DateTime.MinValue`, so the controller answers it with 500 once the amount
  is accepted and the product and the warehouse are found.

Behaviour of the code worth noting:

- The order query does not skip orders whose `FulfilledAt` is set. Only the
  `Product_Warehouse` check decides "already fulfilled".
- The row count of the `UPDATE` is not checked.
- The record's `CreatedAt` is the clock reading, not the request's `CreatedAt`.
- `DbService` itself does not check `Amount > 0`. Only the controller does.
- No tie-break orders the `TOP 1` row.

## Model

| member | source | states |
|---|---|---|
| `Store.Database.SelectTopOrder` | Zadanie9/Zadanie9/Services/DbService.cs:110-131 | The row returned is absent exactly when no order has the request's product and amount and an earlier `CreatedAt`; a returned order always has all three |
| `Store.Database.SetFulfilledAt` | Zadanie9/Zadanie9/Services/DbService.cs:157-162 | Only the named order's `FulfilledAt` becomes the given time; a missing order and every other table are left alone |
| `Store.Database.Insert` | Zadanie9/Zadanie9/Services/DbService.cs:165-177 | Exactly one row is added, under an Id no existing row has, and that Id is returned; the identity seed stays above every used Id |
| `Store.Database.Rollback` | Zadanie9/Zadanie9/Services/DbService.cs:183-187 | Every table returns to the snapshot taken when the transaction began |
| `DbService.AddProductToWarehouseAsync` | Zadanie9/Zadanie9/Services/DbService.cs:73-188 | The statement-by-statement transaction yields exactly the outcome and final store of `Run` for the `TOP 1` row it read; every failure leaves the store as it was; the identity invariant is kept |
| `DbService.ProductNotFoundWhenProductMissing` | Zadanie9/Zadanie9/Services/DbService.cs:86-95 | "Product not found" is reported if and only if the product row is missing, whatever else is missing |
| `DbService.WarehouseNotFoundWhenWarehouseMissing` | Zadanie9/Zadanie9/Services/DbService.cs:97-107 | "Warehouse not found" is reported if and only if the product exists and the warehouse row is missing |
| `DbService.NoMatchingOrderWhenNoneQualifies` | Zadanie9/Zadanie9/Services/DbService.cs:110-137 | "No valid order" is reported if and only if product and warehouse exist, the request's `CreatedAt` fits a `DATETIME`, and no order has the same product, the same amount and an earlier `CreatedAt` |
| `DbService.CreatedAtOutOfRangeFailsOrderQuery` | Zadanie9/Zadanie9/Services/DbService.cs:117-124 | Once product and warehouse are found, a `CreatedAt` outside the `DATETIME` range fails the run with the overflow error and leaves the store unchanged; inside the range and without a store failure, no store error is reported |
| `DbService.AlreadyFulfilledWhenReferenced` | Zadanie9/Zadanie9/Services/DbService.cs:140-149 | "Order is already fulfilled" is reported if and only if all earlier checks pass and a `Product_Warehouse` row references the matched order |
| `DbService.MatchedOrderQualifies` | Zadanie9/Zadanie9/Services/DbService.cs:111-131 | The order a run fulfils or finds fulfilled has the request's product and amount and a strictly earlier `CreatedAt` |
| `DbService.SucceedsWhenAllChecksPass` | Zadanie9/Zadanie9/Services/DbService.cs:86-181 | A run succeeds if and only if no statement fails, the request's `CreatedAt` fits a `DATETIME`, and all four checks pass, in their fixed order |
| `DbService.SuccessAddsOneRecord` | Zadanie9/Zadanie9/Services/DbService.cs:165-181 | On success exactly one row is added, under a fresh Id equal to the returned one, holding warehouse, product, matched order, amount and price = unit price × amount; existing rows are unchanged |
| `DbService.SuccessTouchesOnlyMatchedOrder` | Zadanie9/Zadanie9/Services/DbService.cs:151-162 | On success only the matched order changes, and only its `FulfilledAt`, which becomes the clock reading; products and warehouses are unchanged |
| `DbService.FailureLeavesStoreUnchanged` | Zadanie9/Zadanie9/Services/DbService.cs:183-187 | A failed run, including one whose `INSERT` fails after the `UPDATE`, leaves the store exactly as before |
| `DbService.RunPreservesWellFormed` | Zadanie9/Zadanie9/Services/DbService.cs:165-177 | The identity seed stays above every used Id |
| `DbService.RunPreservesOneRecordPerOrder` | Zadanie9/Zadanie9/Services/DbService.cs:140-149 | The already-fulfilled check keeps at most one `Product_Warehouse` row per order |
| `DbService.RunPreservesFulfilmentConsistency` | Zadanie9/Zadanie9/Services/DbService.cs:157-177 | An order has `FulfilledAt` set exactly when a row references it, before and after every run |
| `DbService.SecondRunOnSameOrderConflicts` | Zadanie9/Zadanie9/Services/DbService.cs:140-149 | Right after a success, the same request matching the same order reports "already fulfilled" and adds no row |
| `DbService.TopOneChoiceDecidesOutcome` | Zadanie9/Zadanie9/Services/DbService.cs:111-116 | With two qualifying orders, one already fulfilled, the same request on the same store is rejected or succeeds depending only on the `TOP 1` row |
| `DbService.ExampleFulfilsOrder` | Zadanie9/Zadanie9/Services/DbService.cs:73-181 | Fulfilment example: with product 1 at 10.00, warehouse 5 and order 7 for 3 units, the request fulfils order 7 with a record priced 30.00 |
| `DbService.ExampleRepeatConflicts` | Zadanie9/Zadanie9/Services/DbService.cs:140-149 | Repeat example: repeating that request right after it succeeded conflicts, whichever row `TOP 1` returns, and creates no second record |
| `DbService.ExampleUnknownProduct` | Zadanie9/Zadanie9/Services/DbService.cs:86-95 | Unknown-product example: product 999 is reported missing and the store is unchanged |
| `WarehouseController.Respond` | Zadanie9/Zadanie9/Controllers/WarehouseController.cs:59-158 | 200 with the Id if and only if success; 404 if and only if product, warehouse or order is missing; 409 if and only if already fulfilled; 500 if and only if a store failure |
| `WarehouseController.AddProductToWarehouse` | Zadanie9/Zadanie9/Controllers/WarehouseController.cs:35-160 | Amount ≤ 0 gives 400 and leaves the store untouched; otherwise the inlined transaction answers `Respond` of DbService's outcome and leaves DbService's final store, so the two copies agree |
| `WarehouseController.BodiesCarryServiceMessages` | Zadanie9/Zadanie9/Controllers/WarehouseController.cs:62-158 | Each error body equals `DbService.ErrorMessage` of the same outcome: the message DbService puts in the exception it creates at that check (DbService.cs lines 94, 106, 136, 148), or the store's own message with "An error occurred: " in front |
| `WarehouseController.RespondIsInjective` | Zadanie9/Zadanie9/Controllers/WarehouseController.cs:59-158 | Different outcomes get different responses |
| `WarehouseController.MissingCreatedAtIsServerError` | Zadanie9/Zadanie9/Controllers/WarehouseController.cs:85-158 | A request with a positive amount carrying `DateTime.MinValue` as `CreatedAt`, for an existing product and warehouse, gets 500 "An error occurred: SqlDateTime overflow…" and leaves the store unchanged |
| `WarehouseController.BadRequestOnlyFromAmountCheck` | Zadanie9/Zadanie9/Controllers/WarehouseController.cs:38-41 | The 400 answer never comes from the transaction |
| `WarehouseController.RepeatedRequestIsConflict` | Zadanie9/Zadanie9/Controllers/WarehouseController.cs:108-117 | Repeating a successful request that matches the same order gets 409 and leaves the store unchanged |

## Left out

- Connections, commands, parameters, `async`/`await` and connection-string configuration are left out. The store is in memory, and a rollback restores a snapshot.
- `DoSomethingAsync` and `ProcedureAsync` in `DbService.cs` are left out. They insert demo rows or call a stored procedure whose body is not part of this model. Neither takes part in fulfilment.
- `IDbService.cs` only declares the interface, so it has no behaviour to model.
- Concurrent requests and isolation levels are left out. Each run is sequential, and "one row per order" is only the in-transaction check.
- The identity seed: SQL Server does not give back an identity value that a rolled-back `INSERT` consumed: the next `INSERT` gets a higher Id. The model restores the seed with the rest of the store.
- The second rollback in `DbService`'s `catch` is left out. It runs after the explicit rollback at every failed check. A `SqlTransaction` that has already been rolled back throws "This SqlTransaction has completed; it is no longer usable." on a second rollback. So a caller of `DbService` never receives the four check messages: it receives that exception instead. The model reports the failed check's outcome and the message created there.
- A failing commit is left out: the commit is taken to succeed.
- 32-bit `int` limits, `Convert.ToInt32` of the identity and the `decimal` range are left out. Integers are unbounded.
- Fractions of a second and the 1/300-second rounding of `DATETIME` are left out. Timestamps are whole seconds. The `DATETIME` range is checked only for the request's `CreatedAt`: the clock readings are taken to lie within it.
- ASP.NET model binding and the `[Required]` attributes of the request are left out. Only the status code and body of each answer are modelled.
