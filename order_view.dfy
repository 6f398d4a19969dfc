/** OrderCreateView.post (store/views/order.py): runs the serializer's
    checks, then create, and turns each outcome into a response envelope. */
module OrderView {
  import opened Common
  import opened Models
  import opened OrderSerializer

  /** What the "data" key of an order response holds. */
  datatype OrderData =
    | NoDetails                                // {}
    | FieldProblems(fields: map<string, string>) // serializer.errors from the field checks
    | OrderProblems(errors: Errors)            // serializer.errors from validate
    | DatabaseRefused(violation: Violation)    // str() of the IntegrityError
    | Unexpected(vanished: ProductId)          // str() of the ValidationError raised inside create

  const CustomUserMissing: string := "CustomUser matching query does not exist."
  const IntegrityMessage: string := "Integrity error occurred."
  const UnexpectedErrorMessage: string := "An unexpected error occurred."

  /** The request passes the field checks and validate. */
  predicate Accepted(products: map<ProductId, Product>, req: OrderRequest)
  {
    FieldErrors(req) == map[] && OrderErrors(products, req) == map[]
  }

  /** The view's answer to each outcome of create: the except clauses
      catch the missing user (ObjectDoesNotExist) as a 404 carrying the
      lookup's message, a database refusal (IntegrityError) as a 400
      carrying the error, and anything else as a 500. */
  function CreatedResponse(outcome: CreateOutcome): (resp: Envelope<OrderData>)
    ensures resp.code == resp.status && resp.success == (resp.status == 201)
    ensures resp.status == 201 <==> outcome.Created?
    ensures outcome == Failed(UserMissing) ==> resp == Envelope(404, 404, CustomUserMissing, Some(NoDetails), false)
    ensures outcome.Failed? && outcome.failure.Integrity? ==>
              resp == Envelope(400, 400, IntegrityMessage, Some(DatabaseRefused(outcome.failure.violation)), false)
    ensures outcome.Failed? && outcome.failure.ProductVanished? ==>
              resp == Envelope(500, 500, UnexpectedErrorMessage, Some(Unexpected(outcome.failure.id)), false)
  {
    match outcome
    case Created(_) => Envelope(201, 201, "Order successfully created", Some(NoDetails), true)
    case Failed(UserMissing) => Envelope(404, 404, CustomUserMissing, Some(NoDetails), false)
    case Failed(Integrity(v)) => Envelope(400, 400, IntegrityMessage, Some(DatabaseRefused(v)), false)
    case Failed(ProductVanished(id)) => Envelope(500, 500, UnexpectedErrorMessage, Some(Unexpected(id)), false)
  }

  /** POST /orders/. A rejected request writes nothing; an accepted one
      answers 201 exactly when every quantity is non-negative and no
      product is asked, over all lines together, for more than its stock.
      Otherwise the database refuses a write part-way: the answer is the
      400 "Integrity error occurred.", and the order row (with total 0),
      the items already inserted and the decrements already made stay.
      A 500 never occurs: validate already found every product. */
  method Post(db: Store, req: OrderRequest) returns (resp: Envelope<OrderData>)
    requires db.Valid()
    modifies db`products, db`orders, db`orderItems, db`nextOrderId
    ensures db.Valid()
    ensures resp.code == resp.status && resp.success == (resp.status == 201)
    ensures resp.status != 500
    ensures FieldErrors(req) != map[] ==>
              resp == Envelope(400, 400, "Failed to create order", Some(FieldProblems(FieldErrors(req))), false)
    ensures FieldErrors(req) == map[] && OrderErrors(old(db.products), req) != map[] ==>
              resp == Envelope(400, 400, "Failed to create order", Some(OrderProblems(OrderErrors(old(db.products), req))), false)
    ensures !Accepted(old(db.products), req) || req.userId !in db.users ==>
              && db.products == old(db.products) && db.orders == old(db.orders)
              && db.orderItems == old(db.orderItems) && db.nextOrderId == old(db.nextOrderId)
    ensures Accepted(old(db.products), req) && req.userId !in db.users ==>
              resp == Envelope(404, 404, CustomUserMissing, Some(NoDetails), false)
    ensures Accepted(old(db.products), req) && req.userId in db.users ==>
              (resp.status == 201 <==> LinesWellFormed(old(db.products), req.lines) && StockCovers(old(db.products), req.lines))
    ensures Accepted(old(db.products), req) && req.userId in db.users ==>
              var id := old(db.nextOrderId);
              var r := RunLines(old(db.products), id, req.lines);
              var order := NewOrder(req.userId, req.shippingAddress, req.paymentMethod);
              && db.nextOrderId == id + 1
              && db.products == r.products
              && db.orderItems == old(db.orderItems) + r.items
              && db.orders == old(db.orders)[id := if r.failure.None? then order.(totalPrice := r.total) else order]
              && (r.failure.Some? ==>
                    && r.failure.value.Integrity?
                    && resp == Envelope(400, 400, IntegrityMessage, Some(DatabaseRefused(r.failure.value.violation)), false))
    ensures Accepted(old(db.products), req) && req.userId in db.users && resp.status == 201 ==>
              var id := old(db.nextOrderId);
              && id in db.orders && |old(db.orderItems)| <= |db.orderItems|
              && db.orders[id].user == req.userId && db.orders[id].shippingStatus == Pending
              && db.orderItems[|old(db.orderItems)|..] == RunLines(old(db.products), id, req.lines).items
              && db.orders[id].totalPrice == SumPrices(db.orderItems[|old(db.orderItems)|..])
              && (forall p :: p in old(db.products) ==>
                    p in db.products && db.products[p].stock == old(db.products)[p].stock - QuantityOf(req.lines, p))
  {
    var fields := FieldErrors(req);
    if fields != map[] {
      return Envelope(400, 400, "Failed to create order", Some(FieldProblems(fields)), false);
    }
    var checked := Validate(db, req);
    if checked.Err? {
      return Envelope(400, 400, "Failed to create order", Some(OrderProblems(checked.error)), false);
    }
    ghost var products0 := db.products;
    ghost var items0 := db.orderItems;
    ghost var id := db.nextOrderId;
    ValidatedRunFindsProducts(products0, id, req);
    RunFailureKinds(products0, id, req.lines);
    RunSucceedsIff(products0, id, req.lines);
    if RunLines(products0, id, req.lines).failure.None? {
      RunLinesSuccess(products0, id, req.lines);
    }
    var outcome := CreateOrder(db, req);
    if req.userId in db.users {
      assert db.orderItems[|items0|..] == RunLines(products0, id, req.lines).items;
    }
    resp := CreatedResponse(outcome);
  }
}
