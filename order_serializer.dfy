/** OrderCreateSerializer and OrderStatusUpdateSerializer
    (store/serializers/order.py).

    `Validate` is a dry pass over the requested lines: it reads the product
    table and collects every problem into one error map. `CreateOrder` then
    inserts the order, one item per line, and decrements stock line by line.
    No transaction surrounds it, and the positive-integer columns
    (OrderItem.quantity, Product.stock_quantity) reject negative values, so a
    failure part-way keeps what was already written. */
module OrderSerializer {
  import opened Common
  import opened Models

  /** A line's `price` as the request's JSON holds it: the dictionary passes
      it through unconverted. `Whole` is a JSON integer; `Number` a JSON
      number written with a fraction of at most two digits (10.99, 11.5,
      11.0), which Python reads as a binary double and which is held here
      as the amount it is written as, in cents; `Flag` is true or false;
      `Other` is a string, a list or an object. A JSON null reads as an
      omitted price. */
  datatype PriceValue = Whole(units: int) | Number(cents: int) | Flag(b: bool) | Other

  /** One entry of the request's `products` list; `price`, when supplied, is
      the caller's idea of the line total. */
  datatype Line = Line(productId: ProductId, quantity: int, price: Option<PriceValue>)

  datatype OrderRequest = OrderRequest(userId: UserId, lines: seq<Line>,
                                       shippingAddress: string, paymentMethod: string)

  /** The keys of the error map: `product_<id>`, `product_<id>_price` and
      `payment_method`. */
  datatype ErrorKey = ProductKey(id: ProductId) | ProductPriceKey(id: ProductId) | PaymentMethodKey

  datatype OrderError =
    | ProductMissing(id: ProductId)
    | OutOfStock(available: int, name: string)
    | WrongPrice(name: string, expected: Cents)
    | InvalidPaymentMethod

  type Errors = map<ErrorKey, OrderError>

  const PaymentMethods: seq<string> := ["Credit Card", "PayPal", "Cash on Delivery"]

  /** The key as the error dictionary spells it. */
  function KeyName(k: ErrorKey): string
  {
    match k
    case ProductKey(id) => "product_" + IntToString(id)
    case ProductPriceKey(id) => "product_" + IntToString(id) + "_price"
    case PaymentMethodKey => "payment_method"
  }

  /** The message text of each error. */
  function Message(e: OrderError): string
  {
    match e
    case ProductMissing(id) => "Product with ID " + IntToString(id) + " does not exist."
    case OutOfStock(available, name) => "Only " + IntToString(available) + " units of " + name + " are available."
    case WrongPrice(name, expected) => "Invalid price for " + name + ". The correct price should be " + CentsToString(expected) + "."
    case InvalidPaymentMethod => "Invalid payment method."
  }

  /** The second character tells `payment_method` from the product keys,
      and a final digit tells `product_<id>` from `product_<id>_price`. */
  lemma KeyShape(k: ErrorKey)
    ensures |KeyName(k)| >= 2
    ensures KeyName(k)[1] == 'a' <==> k.PaymentMethodKey?
    ensures '0' <= KeyName(k)[|KeyName(k)| - 1] <= '9' <==> k.ProductKey?
  {
  }

  /** Distinct keys are spelled differently, so a map over ErrorKey is the
      same thing as the serializer's string-keyed dictionary. */
  lemma KeyNameInjective(k1: ErrorKey, k2: ErrorKey)
    requires KeyName(k1) == KeyName(k2)
    ensures k1 == k2
  {
    KeyShape(k1);
    KeyShape(k2);
    var n, m := KeyName(k1), KeyName(k2);
    if k1.ProductKey? && k2.ProductKey? {
      assert n[8..] == IntToString(k1.id);
      assert m[8..] == IntToString(k2.id);
      IntToStringInjective(k1.id, k2.id);
    } else if k1.ProductPriceKey? && k2.ProductPriceKey? {
      assert n[8..|n| - 6] == IntToString(k1.id);
      assert m[8..|m| - 6] == IntToString(k2.id);
      IntToStringInjective(k1.id, k2.id);
    }
  }

  // ---------------------------------------------------------------------------
  // Field declarations: checked before validate runs, and when any fails
  // validate does not run.

  /** The field errors of a request, keyed by field name. */
  function FieldErrors(req: OrderRequest): (r: map<string, string>)
    ensures "shipping_address" in r <==> CharFieldError(req.shippingAddress, 255).Some?
    ensures "payment_method" in r <==> CharFieldError(req.paymentMethod, 50).Some?
    ensures r.Keys <= {"shipping_address", "payment_method"}
    ensures r == map[] <==> CharFieldError(req.shippingAddress, 255).None? && CharFieldError(req.paymentMethod, 50).None?
  {
    var a := CharFieldError(req.shippingAddress, 255);
    var m := CharFieldError(req.paymentMethod, 50);
    var withAddress := if a.Some? then map["shipping_address" := a.value] else map[];
    if m.Some? then withAddress["payment_method" := m.value] else withAddress
  }

  /** Every accepted payment method passes the field check, so a wrong one
      is reported by validate, never by the field. */
  lemma PaymentMethodsPassFieldCheck(req: OrderRequest)
    requires req.paymentMethod in PaymentMethods
    ensures "payment_method" !in FieldErrors(req)
  {
  }

  // ---------------------------------------------------------------------------
  // validate

  /** The line names no product, or asks for more than its current stock. */
  predicate StockProblem(products: map<ProductId, Product>, line: Line)
  {
    line.productId !in products || products[line.productId].stock < line.quantity
  }

  /** `price == expected_price` as Python evaluates it against the Decimal
      line total. An integer or a boolean (True is 1) equals it when the
      values agree. A double equals it only when it holds the amount
      exactly, and a two-decimal amount is a binary double exactly when it
      is a whole number of quarters. Any other value never equals a
      Decimal. */
  predicate PriceMatches(v: PriceValue, expected: Cents)
  {
    match v
    case Whole(units) => units * 100 == expected
    case Number(cents) => cents == expected && cents % 25 == 0
    case Flag(b) => (if b then 100 else 0) == expected
    case Other => false
  }

  /** The line names a product and supplies a price that Python does not
      find equal to the product's price times the quantity. */
  predicate PriceProblem(products: map<ProductId, Product>, line: Line)
  {
    && line.productId in products
    && line.price.Some?
    && !PriceMatches(line.price.value, products[line.productId].price * line.quantity)
  }

  /** What one line adds to the errors collected so far. */
  function LineErrors(products: map<ProductId, Product>, errors: Errors, line: Line): Errors
  {
    var id := line.productId;
    if id !in products then errors[ProductKey(id) := ProductMissing(id)]
    else
      var p := products[id];
      var afterStock := if p.stock < line.quantity then errors[ProductKey(id) := OutOfStock(p.stock, p.name)] else errors;
      var expected := p.price * line.quantity;
      if line.price.Some? && !PriceMatches(line.price.value, expected) then afterStock[ProductPriceKey(id) := WrongPrice(p.name, expected)]
      else afterStock
  }

  /** The errors collected over `lines`, in request order (a later write to
      the same key replaces an earlier one). */
  function LinesErrors(products: map<ProductId, Product>, lines: seq<Line>): Errors
    decreases |lines|
  {
    if lines == [] then map[]
    else LineErrors(products, LinesErrors(products, lines[..|lines| - 1]), lines[|lines| - 1])
  }

  /** The whole error map of `validate`. */
  function OrderErrors(products: map<ProductId, Product>, req: OrderRequest): Errors
  {
    var errors := LinesErrors(products, req.lines);
    if req.paymentMethod in PaymentMethods then errors else errors[PaymentMethodKey := InvalidPaymentMethod]
  }

  /** Every key of the line errors, and what it holds: `product_<id>` is
      present exactly when some line for that id names a missing product or
      exceeds the unmodified stock, and then says which; `product_<id>_price`
      is present exactly when some line for an existing product supplies a
      wrong price. Lines are checked one by one: quantities of repeated
      lines are never added up. */
  lemma {:induction false} LinesErrorsKeys(products: map<ProductId, Product>, lines: seq<Line>, id: ProductId)
    ensures ProductKey(id) in LinesErrors(products, lines) <==>
              exists i :: 0 <= i < |lines| && lines[i].productId == id && StockProblem(products, lines[i])
    ensures ProductKey(id) in LinesErrors(products, lines) ==>
              LinesErrors(products, lines)[ProductKey(id)] ==
                (if id in products then OutOfStock(products[id].stock, products[id].name) else ProductMissing(id))
    ensures ProductPriceKey(id) in LinesErrors(products, lines) <==>
              exists i :: 0 <= i < |lines| && lines[i].productId == id && PriceProblem(products, lines[i])
    ensures ProductPriceKey(id) in LinesErrors(products, lines) ==>
              exists i :: 0 <= i < |lines| && lines[i].productId == id && PriceProblem(products, lines[i]) &&
                LinesErrors(products, lines)[ProductPriceKey(id)] ==
                  WrongPrice(products[id].name, products[id].price * lines[i].quantity)
    ensures PaymentMethodKey !in LinesErrors(products, lines)
    decreases |lines|
  {
    if lines != [] {
      var n := |lines| - 1;
      var init, last := lines[..n], lines[n];
      LinesErrorsKeys(products, init, id);
      assert forall i :: 0 <= i < n ==> init[i] == lines[i];
      var before := LinesErrors(products, init);
      var after := LinesErrors(products, lines);
      assert after == LineErrors(products, before, last);
      if ProductPriceKey(id) in after && last.productId == id && PriceProblem(products, last) {
        assert after[ProductPriceKey(id)] == WrongPrice(products[id].name, products[id].price * last.quantity);
      } else if ProductPriceKey(id) in after {
        var i :| 0 <= i < n && init[i].productId == id && PriceProblem(products, init[i]) &&
                 before[ProductPriceKey(id)] == WrongPrice(products[id].name, products[id].price * init[i].quantity);
        assert lines[i] == init[i];
      }
    }
  }

  /** validate succeeds exactly when every line names an existing product
      whose unmodified stock covers that line alone, every supplied price
      compares equal to the line total as Python compares it, and the
      payment method is one of the three. */
  lemma OrderErrorsEmpty(products: map<ProductId, Product>, req: OrderRequest)
    ensures OrderErrors(products, req) == map[] <==>
              && (forall i :: 0 <= i < |req.lines| ==> !StockProblem(products, req.lines[i]) && !PriceProblem(products, req.lines[i]))
              && req.paymentMethod in PaymentMethods
  {
    var e := OrderErrors(products, req);
    LinesErrorsKeys(products, req.lines, 0);
    if e == map[] {
      forall i | 0 <= i < |req.lines|
        ensures !StockProblem(products, req.lines[i]) && !PriceProblem(products, req.lines[i])
      {
        LinesErrorsKeys(products, req.lines, req.lines[i].productId);
      }
    } else {
      var k :| k in e;
      match k {
        case PaymentMethodKey =>
        case ProductKey(id) => LinesErrorsKeys(products, req.lines, id);
        case ProductPriceKey(id) => LinesErrorsKeys(products, req.lines, id);
      }
    }
  }

  /** The payment method is reported exactly when it is outside the three. */
  lemma PaymentMethodReported(products: map<ProductId, Product>, req: OrderRequest)
    ensures PaymentMethodKey in OrderErrors(products, req) <==> req.paymentMethod !in PaymentMethods
    ensures PaymentMethodKey in OrderErrors(products, req) ==> OrderErrors(products, req)[PaymentMethodKey] == InvalidPaymentMethod
  {
    LinesErrorsKeys(products, req.lines, 0);
  }

  /** An omitted price never produces a price error. */
  lemma OmittedPriceNeverErrs(products: map<ProductId, Product>, req: OrderRequest, id: ProductId)
    requires forall i :: 0 <= i < |req.lines| && req.lines[i].productId == id ==> req.lines[i].price.None?
    ensures ProductPriceKey(id) !in OrderErrors(products, req)
  {
    LinesErrorsKeys(products, req.lines, id);
  }

  // ---------------------------------------------------------------------------
  // The price check against what was evidently meant: a supplied price is
  // right when the amount it is written as is the line total.

  /** The amount a price value is written as, in cents, when it is a number. */
  function WrittenAmount(v: PriceValue): Option<Cents>
  {
    match v
    case Whole(units) => Some(units * 100)
    case Number(cents) => Some(cents)
    case _ => None
  }

  /** The intended comparison. */
  predicate PriceAgrees(v: PriceValue, expected: Cents)
  {
    WrittenAmount(v) == Some(expected)
  }

  /** Under the intended comparison, a client that writes the line total,
      as an integer or with two decimals, is accepted; a string, a list or
      a boolean never is. */
  lemma CorrectPriceAgrees(v: PriceValue, expected: Cents)
    ensures PriceAgrees(Number(expected), expected)
    ensures expected % 100 == 0 ==> PriceAgrees(Whole(expected / 100), expected)
    ensures v.Other? || v.Flag? ==> !PriceAgrees(v, expected)
  {
  }

  /** Python's comparison accepts no number the intended one refuses: the
      check as written is only ever stricter (booleans aside). */
  lemma PriceMatchesOnlyIfAgrees(v: PriceValue, expected: Cents)
    requires !v.Flag?
    ensures PriceMatches(v, expected) ==> PriceAgrees(v, expected)
  {
  }

  /** The check as written: a line total that is not a whole number of
      quarters is matched by no two-decimal number, and one that is is
      matched by exactly itself. */
  lemma TwoDecimalMatchesOnlyQuarters(cents: int, expected: Cents)
    ensures expected % 25 != 0 ==> !PriceMatches(Number(cents), expected)
    ensures expected % 25 == 0 ==> (PriceMatches(Number(cents), expected) <==> cents == expected)
  {
  }

  /** The discrepancy on one request: product 3 costs 10.99 and the single
      line asks for one unit at price 10.99. The intended check agrees,
      but validate reports the price as wrong. */
  lemma TwoDecimalPriceRefused()
    ensures PriceAgrees(Number(1099), 1099)
    ensures var products := map[3 := Product("Pen", "", 1099, 10, 1, false, 1)];
            var req := OrderRequest(1, [Line(3, 1, Some(Number(1099)))], "1 Main St", "PayPal");
            OrderErrors(products, req) == map[ProductPriceKey(3) := WrongPrice("Pen", 1099)]
  {
    var products := map[3 := Product("Pen", "", 1099, 10, 1, false, 1)];
    var lines := [Line(3, 1, Some(Number(1099)))];
    assert lines[..0] == [];
    assert LinesErrors(products, lines) == LineErrors(products, map[], lines[0]);
  }

  /** OrderCreateSerializer.validate: the dry pass. It reads the product
      table, writes nothing, and returns the request unchanged when the error
      map is empty. */
  method Validate(db: Store, req: OrderRequest) returns (r: Result<OrderRequest, Errors>)
    ensures r.Ok? <==> OrderErrors(db.products, req) == map[]
    ensures r.Ok? ==> r.value == req
    ensures r.Err? ==> r.error == OrderErrors(db.products, req)
  {
    var errors: Errors := map[];
    var i := 0;
    while i < |req.lines|
      invariant 0 <= i <= |req.lines|
      invariant errors == LinesErrors(db.products, req.lines[..i])
    {
      var line := req.lines[i];
      var id := line.productId;
      if id !in db.products {
        errors := errors[ProductKey(id) := ProductMissing(id)];
      } else {
        var product := db.products[id];
        if product.stock < line.quantity {
          errors := errors[ProductKey(id) := OutOfStock(product.stock, product.name)];
        }
        var expected := product.price * line.quantity;
        if line.price.Some? && !PriceMatches(line.price.value, expected) {
          errors := errors[ProductPriceKey(id) := WrongPrice(product.name, expected)];
        }
      }
      assert req.lines[..i + 1][..i] == req.lines[..i];
      i := i + 1;
    }
    assert req.lines[..i] == req.lines;
    if req.paymentMethod !in PaymentMethods {
      errors := errors[PaymentMethodKey := InvalidPaymentMethod];
    }
    if errors != map[] {
      return Err(errors);
    }
    return Ok(req);
  }

  // ---------------------------------------------------------------------------
  // create

  /** Why the database refused a write. */
  datatype Violation = NegativeItemQuantity | NegativeStock(id: ProductId)

  datatype CreateFailure =
    | UserMissing                      // CustomUser.DoesNotExist from the user lookup
    | ProductVanished(id: ProductId)   // the ValidationError raised inside create
    | Integrity(violation: Violation)  // IntegrityError from the database

  datatype CreateOutcome = Created(orderId: OrderId) | Failed(failure: CreateFailure)

  /** The effect of the item loop so far: the product table, the items
      inserted, the running total, and the failure that stopped it. */
  datatype Run = Run(products: map<ProductId, Product>, items: seq<OrderItem>, total: Cents, failure: Option<CreateFailure>)

  /** One turn of the loop: look the product up, price the line, insert the
      item, then write back the decremented stock. */
  function Step(run: Run, order: OrderId, line: Line): Run
  {
    var id := line.productId;
    if id !in run.products then run.(failure := Some(ProductVanished(id)))
    else
      var p := run.products[id];
      var itemPrice := p.price * line.quantity;
      var total := run.total + itemPrice;
      if line.quantity < 0 then run.(total := total, failure := Some(Integrity(NegativeItemQuantity)))
      else
        var items := run.items + [OrderItem(order, id, line.quantity, itemPrice)];
        if p.stock - line.quantity < 0 then Run(run.products, items, total, Some(Integrity(NegativeStock(id))))
        else Run(run.products[id := p.(stock := p.stock - line.quantity)], items, total, None)
  }

  /** The loop over `lines`, stopping at the first failure. */
  function RunLines(products: map<ProductId, Product>, order: OrderId, lines: seq<Line>): Run
    decreases |lines|
  {
    if lines == [] then Run(products, [], 0, None)
    else
      var before := RunLines(products, order, lines[..|lines| - 1]);
      if before.failure.Some? then before else Step(before, order, lines[|lines| - 1])
  }

  /** Units of product `id` requested over all lines. */
  function QuantityOf(lines: seq<Line>, id: ProductId): int
    decreases |lines|
  {
    if lines == [] then 0
    else QuantityOf(lines[..|lines| - 1], id) + (if lines[|lines| - 1].productId == id then lines[|lines| - 1].quantity else 0)
  }

  function SumPrices(items: seq<OrderItem>): Cents
    decreases |items|
  {
    if items == [] then 0 else SumPrices(items[..|items| - 1]) + items[|items| - 1].price
  }

  /** The item create inserts for a line, priced from the unmodified table. */
  function ItemFor(products: map<ProductId, Product>, order: OrderId, line: Line): OrderItem
    requires line.productId in products
  {
    OrderItem(order, line.productId, line.quantity, products[line.productId].price * line.quantity)
  }

  /** What the loop keeps true whether or not it fails: only stock changes,
      stock stays non-negative, and every inserted item belongs to the order,
      names an existing product and has a non-negative quantity. */
  lemma {:induction false} RunLinesFrame(products: map<ProductId, Product>, order: OrderId, lines: seq<Line>)
    ensures var r := RunLines(products, order, lines);
      && r.products.Keys == products.Keys
      && (forall id :: id in products ==> r.products[id] == products[id].(stock := r.products[id].stock))
      && ((forall id :: id in products ==> products[id].stock >= 0) ==> forall id :: id in r.products ==> r.products[id].stock >= 0)
      && (forall i :: 0 <= i < |r.items| ==> r.items[i].order == order && r.items[i].product in products && r.items[i].quantity >= 0)
    decreases |lines|
  {
    if lines != [] {
      RunLinesFrame(products, order, lines[..|lines| - 1]);
    }
  }

  /** While no failure occurred, the items are one per line in request
      order, priced from the unmodified table, the total is their sum, and
      each product's stock has dropped by the units its lines requested. */
  lemma RunLinesSuccess(products: map<ProductId, Product>, order: OrderId, lines: seq<Line>)
    requires RunLines(products, order, lines).failure.None?
    ensures var r := RunLines(products, order, lines);
      && |r.items| == |lines|
      && (forall i :: 0 <= i < |lines| ==> lines[i].productId in products && r.items[i] == ItemFor(products, order, lines[i]))
      && r.total == SumPrices(r.items)
      && (forall id :: id in products ==> id in r.products && r.products[id].stock == products[id].stock - QuantityOf(lines, id))
  {
    RunLinesItems(products, order, lines);
    RunLinesStock(products, order, lines);
  }

  /** The items and total part of RunLinesSuccess. */
  lemma {:induction false} RunLinesItems(products: map<ProductId, Product>, order: OrderId, lines: seq<Line>)
    requires RunLines(products, order, lines).failure.None?
    ensures var r := RunLines(products, order, lines);
      && |r.items| == |lines|
      && (forall i :: 0 <= i < |lines| ==> lines[i].productId in products && r.items[i] == ItemFor(products, order, lines[i]))
      && r.total == SumPrices(r.items)
    decreases |lines|
  {
    if lines != [] {
      var n := |lines| - 1;
      var init, last := lines[..n], lines[n];
      var before := RunLines(products, order, init);
      RunLinesItems(products, order, init);
      RunLinesFrame(products, order, init);
      StepItem(products, order, before, last);
      var r := RunLines(products, order, lines);
      assert r == Step(before, order, last);
      assert forall i :: 0 <= i < n ==> init[i] == lines[i];
      assert r.items[..n] == before.items;
    }
  }

  /** A step that succeeds appends the item priced from the unmodified
      table, whose price the loop's stock updates leave alone, and adds that
      price to the total. */
  lemma StepItem(products: map<ProductId, Product>, order: OrderId, before: Run, line: Line)
    requires before.failure.None? && Step(before, order, line).failure.None?
    requires before.products.Keys == products.Keys
    requires forall id :: id in products ==> before.products[id] == products[id].(stock := before.products[id].stock)
    ensures line.productId in products
    ensures Step(before, order, line).items == before.items + [ItemFor(products, order, line)]
    ensures Step(before, order, line).total == before.total + ItemFor(products, order, line).price
  {
    assert line.productId in before.products;
    assert before.products[line.productId].price == products[line.productId].price;
  }

  /** The stock part of RunLinesSuccess. */
  lemma {:induction false} RunLinesStock(products: map<ProductId, Product>, order: OrderId, lines: seq<Line>)
    requires RunLines(products, order, lines).failure.None?
    ensures var r := RunLines(products, order, lines);
      forall id :: id in products ==> id in r.products && r.products[id].stock == products[id].stock - QuantityOf(lines, id)
    decreases |lines|
  {
    if lines != [] {
      var n := |lines| - 1;
      var init, last := lines[..n], lines[n];
      var before := RunLines(products, order, init);
      RunLinesStock(products, order, init);
      RunLinesFrame(products, order, init);
      assert RunLines(products, order, lines) == Step(before, order, last);
    }
  }

  /** The loop over one more line: the step of that line, unless an earlier
      line already failed. */
  lemma RunLinesSnoc(products: map<ProductId, Product>, order: OrderId, lines: seq<Line>, i: nat)
    requires i < |lines|
    ensures var before := RunLines(products, order, lines[..i]);
            RunLines(products, order, lines[..i + 1]) == if before.failure.Some? then before else Step(before, order, lines[i])
  {
    assert lines[..i + 1][..i] == lines[..i];
  }

  /** Once the loop has failed, later lines change nothing. */
  lemma {:induction false} FailureSticks(products: map<ProductId, Product>, order: OrderId, lines: seq<Line>, k: nat)
    requires k <= |lines|
    requires RunLines(products, order, lines[..k]).failure.Some?
    ensures RunLines(products, order, lines) == RunLines(products, order, lines[..k])
    decreases |lines| - k
  {
    if k < |lines| {
      assert lines[..k + 1][..k] == lines[..k];
      FailureSticks(products, order, lines, k + 1);
    } else {
      assert lines[..k] == lines;
    }
  }

  /** The loop fails only by a vanished product or a database refusal; the
      user lookup comes before it. */
  lemma {:induction false} RunFailureKinds(products: map<ProductId, Product>, order: OrderId, lines: seq<Line>)
    ensures var r := RunLines(products, order, lines);
            r.failure.Some? ==> r.failure.value.ProductVanished? || r.failure.value.Integrity?
    decreases |lines|
  {
    if lines != [] {
      RunFailureKinds(products, order, lines[..|lines| - 1]);
    }
  }

  /** Units requested only grow as lines are added. */
  lemma QuantityOfGrows(lines: seq<Line>, id: ProductId)
    requires lines != [] && lines[|lines| - 1].quantity >= 0
    ensures QuantityOf(lines[..|lines| - 1], id) <= QuantityOf(lines, id)
  {
  }

  /** Every line names an existing product with a non-negative quantity. */
  predicate LinesWellFormed(products: map<ProductId, Product>, lines: seq<Line>)
  {
    forall i :: 0 <= i < |lines| ==> lines[i].productId in products && lines[i].quantity >= 0
  }

  /** No product is asked, over all its lines together, for more than its stock. */
  predicate StockCovers(products: map<ProductId, Product>, lines: seq<Line>)
  {
    forall id :: id in products ==> QuantityOf(lines, id) <= products[id].stock
  }

  /** A completed loop had well-formed lines whose totals the stock covered. */
  lemma {:induction false} RunSucceedsOnlyIf(products: map<ProductId, Product>, order: OrderId, lines: seq<Line>)
    requires forall id :: id in products ==> products[id].stock >= 0
    requires RunLines(products, order, lines).failure.None?
    ensures LinesWellFormed(products, lines) && StockCovers(products, lines)
    decreases |lines|
  {
    if lines != [] {
      var n := |lines| - 1;
      var init, last := lines[..n], lines[n];
      assert forall i :: 0 <= i < n ==> init[i] == lines[i];
      var before := RunLines(products, order, init);
      assert before.failure.None?;
      RunSucceedsOnlyIf(products, order, init);
      RunLinesSuccess(products, order, init);
      RunLinesFrame(products, order, init);
      assert RunLines(products, order, lines) == Step(before, order, last);
      assert last.productId in before.products && last.quantity >= 0;
      assert before.products[last.productId].stock - last.quantity >= 0;
      forall id | id in products
        ensures QuantityOf(lines, id) <= products[id].stock
      {
        assert QuantityOf(lines, id) == QuantityOf(init, id) + (if last.productId == id then last.quantity else 0);
      }
    }
  }

  /** From non-negative stock, well-formed lines whose totals the stock
      covers complete the loop. */
  lemma {:induction false} RunSucceedsIf(products: map<ProductId, Product>, order: OrderId, lines: seq<Line>)
    requires forall id :: id in products ==> products[id].stock >= 0
    requires LinesWellFormed(products, lines) && StockCovers(products, lines)
    ensures RunLines(products, order, lines).failure.None?
    decreases |lines|
  {
    if lines != [] {
      var n := |lines| - 1;
      var init, last := lines[..n], lines[n];
      assert forall i :: 0 <= i < n ==> init[i] == lines[i];
      forall id | id in products
        ensures QuantityOf(init, id) <= products[id].stock
      {
        QuantityOfGrows(lines, id);
      }
      RunSucceedsIf(products, order, init);
      var before := RunLines(products, order, init);
      RunLinesSuccess(products, order, init);
      RunLinesFrame(products, order, init);
      assert QuantityOf(lines, last.productId) == QuantityOf(init, last.productId) + last.quantity;
    }
  }

  /** Starting from non-negative stock, the loop completes exactly when
      every line names an existing product with a non-negative quantity and
      no product is asked, over all its lines together, for more than its
      stock: quantities of repeated lines add up here, unlike in validate. */
  lemma RunSucceedsIff(products: map<ProductId, Product>, order: OrderId, lines: seq<Line>)
    requires forall id :: id in products ==> products[id].stock >= 0
    ensures RunLines(products, order, lines).failure.None? <==>
              LinesWellFormed(products, lines) && StockCovers(products, lines)
  {
    if RunLines(products, order, lines).failure.None? {
      RunSucceedsOnlyIf(products, order, lines);
    }
    if LinesWellFormed(products, lines) && StockCovers(products, lines) {
      RunSucceedsIf(products, order, lines);
    }
  }

  /** validate passing guarantees that create finds every product: the
      ValidationError inside create cannot be reached in one request. */
  lemma ValidatedRunFindsProducts(products: map<ProductId, Product>, order: OrderId, req: OrderRequest)
    requires OrderErrors(products, req) == map[]
    ensures !RunLines(products, order, req.lines).failure.Some? ||
            !RunLines(products, order, req.lines).failure.value.ProductVanished?
  {
    OrderErrorsEmpty(products, req);
    FindsProducts(products, order, req.lines);
  }

  lemma {:induction false} FindsProducts(products: map<ProductId, Product>, order: OrderId, lines: seq<Line>)
    requires forall i :: 0 <= i < |lines| ==> lines[i].productId in products
    ensures var r := RunLines(products, order, lines); !r.failure.Some? || !r.failure.value.ProductVanished?
    decreases |lines|
  {
    if lines != [] {
      var n := |lines| - 1;
      assert forall i :: 0 <= i < n ==> lines[..n][i] == lines[i];
      FindsProducts(products, order, lines[..n]);
      RunLinesFrame(products, order, lines[..n]);
    }
  }

  /** Each line is checked against the unmodified stock, so two lines of 3
      units of a product holding 5 pass validate; create then inserts both
      items but the second decrement is refused, leaving the first decrement,
      both items and an order whose total is still 0. */
  lemma RepeatedLinesPassValidateButNotCreate()
    ensures var products := map[7 := Product("Mug", "", 250, 5, 1, true, 1)];
            var req := OrderRequest(1, [Line(7, 3, None), Line(7, 3, None)], "1 Main St", "PayPal");
            var r := RunLines(products, 1, req.lines);
            && OrderErrors(products, req) == map[]
            && r.failure == Some(Integrity(NegativeStock(7)))
            && 7 in r.products && r.products[7].stock == 2
            && |r.items| == 2
  {
    var products := map[7 := Product("Mug", "", 250, 5, 1, true, 1)];
    var req := OrderRequest(1, [Line(7, 3, None), Line(7, 3, None)], "1 Main St", "PayPal");
    OrderErrorsEmpty(products, req);
    assert req.lines[..1] == [Line(7, 3, None)];
    assert req.lines[..1][..0] == [];
  }

  /** A step depends on the items already inserted only by appending to them. */
  lemma StepAppends(run: Run, order: OrderId, line: Line)
    requires run.failure.None?
    ensures var alone := Step(run.(items := []), order, line);
            Step(run, order, line) == alone.(items := run.items + alone.items)
  {
  }

  /** One turn of create's item loop against the database, from running
      total `total`: what it writes and how it ends are those of `Step`. */
  method InsertLine(db: Store, order: OrderId, line: Line, total: Cents) returns (newTotal: Cents, failure: Option<CreateFailure>)
    requires db.ProductsValid() && db.OrdersValid() && order in db.orders
    modifies db`products, db`orderItems
    ensures db.ProductsValid() && db.OrdersValid()
    ensures var r := Step(Run(old(db.products), [], total, None), order, line);
            && db.products == r.products && db.orderItems == old(db.orderItems) + r.items
            && newTotal == r.total && failure == r.failure
  {
    newTotal := total;
    if line.productId !in db.products {
      return newTotal, Some(ProductVanished(line.productId));
    }
    var product := db.products[line.productId];
    var itemPrice := product.price * line.quantity;
    newTotal := total + itemPrice;
    if line.quantity < 0 {
      return newTotal, Some(Integrity(NegativeItemQuantity));
    }
    db.orderItems := db.orderItems + [OrderItem(order, line.productId, line.quantity, itemPrice)];
    var stock := product.stock - line.quantity;
    if stock < 0 {
      return newTotal, Some(Integrity(NegativeStock(line.productId)));
    }
    db.products := db.products[line.productId := product.(stock := stock)];
    return newTotal, None;
  }

  /** create's item loop against the database: what it writes and how it
      ends are those of `RunLines`, and it stops at the first failure. */
  method InsertLines(db: Store, order: OrderId, lines: seq<Line>) returns (total: Cents, failure: Option<CreateFailure>)
    requires db.ProductsValid() && db.OrdersValid() && order in db.orders
    modifies db`products, db`orderItems
    ensures db.ProductsValid() && db.OrdersValid()
    ensures var r := RunLines(old(db.products), order, lines);
            && db.products == r.products && db.orderItems == old(db.orderItems) + r.items
            && total == r.total && failure == r.failure
  {
    ghost var run := Run(db.products, [], 0, None);
    total := 0;
    var i := 0;
    while i < |lines|
      invariant 0 <= i <= |lines|
      invariant run == RunLines(old(db.products), order, lines[..i]) && run.failure.None?
      invariant db.products == run.products && db.orderItems == old(db.orderItems) + run.items && total == run.total
      invariant db.ProductsValid() && db.OrdersValid() && order in db.orders
    {
      RunLinesSnoc(old(db.products), order, lines, i);
      StepAppends(run, order, lines[i]);
      total, failure := InsertLine(db, order, lines[i], total);
      run := Step(run, order, lines[i]);
      if failure.Some? {
        FailureSticks(old(db.products), order, lines, i + 1);
        return;
      }
      i := i + 1;
    }
    assert lines[..i] == lines;
    failure := None;
  }

  /** Order.objects.create: the new row takes the next id. */
  method InsertOrder(db: Store, order: Order) returns (id: OrderId)
    requires db.OrdersValid() && order.user in db.users
    modifies db`orders, db`nextOrderId
    ensures db.OrdersValid()
    ensures id == old(db.nextOrderId) && db.nextOrderId == id + 1 && db.orders == old(db.orders)[id := order]
  {
    id := db.nextOrderId;
    db.orders := db.orders[id := order];
    db.nextOrderId := id + 1;
  }

  /** order.save() after the loop: the stored total is replaced. */
  method SaveTotal(db: Store, id: OrderId, total: Cents)
    requires db.OrdersValid() && id in db.orders
    modifies db`orders
    ensures db.OrdersValid()
    ensures db.orders == old(db.orders)[id := old(db.orders)[id].(totalPrice := total)]
  {
    db.orders := db.orders[id := db.orders[id].(totalPrice := total)];
  }

  /** create once the user is found: insert the order with its defaults,
      run the item loop, and on completion store the total. */
  method PlaceOrder(db: Store, req: OrderRequest) returns (outcome: CreateOutcome)
    requires db.ProductsValid() && db.OrdersValid() && req.userId in db.users
    modifies db`products, db`orders, db`orderItems, db`nextOrderId
    ensures db.ProductsValid() && db.OrdersValid()
    ensures var id := old(db.nextOrderId);
            var r := RunLines(old(db.products), id, req.lines);
            var order := NewOrder(req.userId, req.shippingAddress, req.paymentMethod);
            && db.nextOrderId == id + 1
            && db.products == r.products
            && db.orderItems == old(db.orderItems) + r.items
            && db.orders == old(db.orders)[id := if r.failure.None? then order.(totalPrice := r.total) else order]
            && outcome == (if r.failure.None? then Created(id) else Failed(r.failure.value))
  {
    var order := NewOrder(req.userId, req.shippingAddress, req.paymentMethod);
    var id := InsertOrder(db, order);
    var total, failure := InsertLines(db, id, req.lines);
    if failure.Some? {
      outcome := Failed(failure.value);
    } else {
      SaveTotal(db, id, total);
      assert old(db.orders)[id := order][id := order.(totalPrice := total)] == old(db.orders)[id := order.(totalPrice := total)];
      outcome := Created(id);
    }
  }

  /** OrderCreateSerializer.create. Looks the user up, then places the
      order. On any failure the rows already written stay written. */
  method CreateOrder(db: Store, req: OrderRequest) returns (outcome: CreateOutcome)
    requires db.Valid()
    modifies db`products, db`orders, db`orderItems, db`nextOrderId
    ensures db.Valid()
    ensures req.userId !in db.users ==>
              && outcome == Failed(UserMissing)
              && db.products == old(db.products) && db.orders == old(db.orders)
              && db.orderItems == old(db.orderItems) && db.nextOrderId == old(db.nextOrderId)
    ensures req.userId in db.users ==>
              var id := old(db.nextOrderId);
              var r := RunLines(old(db.products), id, req.lines);
              var order := NewOrder(req.userId, req.shippingAddress, req.paymentMethod);
              && db.nextOrderId == id + 1
              && db.products == r.products
              && db.orderItems == old(db.orderItems) + r.items
              && db.orders == old(db.orders)[id := if r.failure.None? then order.(totalPrice := r.total) else order]
              && outcome == (if r.failure.None? then Created(id) else Failed(r.failure.value))
  {
    if req.userId !in db.users {
      return Failed(UserMissing);
    }
    outcome := PlaceOrder(db, req);
  }

  // ---------------------------------------------------------------------------
  // OrderStatusUpdateSerializer.validate_shipping_status

  datatype StatusError = CancelledOrder | DeliveredOrder | InvalidTransition

  function StatusErrorMessage(e: StatusError): string
  {
    match e
    case CancelledOrder => "Cannot change status of a cancelled order."
    case DeliveredOrder => "Cannot change status of a delivered order."
    case InvalidTransition => "Invalid status transition."
  }

  /** The requested status checked against the order's current one. A
      shipped order has no rule, so every choice is accepted from it. */
  function ValidateShippingStatus(current: ShippingStatus, value: ShippingStatus): (r: Result<ShippingStatus, StatusError>)
    ensures r.Ok? ==> r.value == value
    ensures current == Cancelled ==> r == Err(CancelledOrder)
    ensures current == Delivered ==> r == (if value == Delivered then Ok(value) else Err(DeliveredOrder))
    ensures current == Pending ==> r == (if value == Shipped || value == Cancelled then Ok(value) else Err(InvalidTransition))
    ensures current == Shipped ==> r == Ok(value)
  {
    if current == Cancelled then Err(CancelledOrder)
    else if current == Delivered && value != Delivered then Err(DeliveredOrder)
    else if current == Pending && !(value == Shipped || value == Cancelled) then Err(InvalidTransition)
    else Ok(value)
  }

  /** The status after a series of update requests, each accepted or
      rejected by the rule against the status at that point. */
  function ApplyUpdates(current: ShippingStatus, requests: seq<ShippingStatus>): ShippingStatus
    decreases |requests|
  {
    if requests == [] then current
    else
      var next := match ValidateShippingStatus(current, requests[0])
                  case Ok(v) => v
                  case Err(_) => current;
      ApplyUpdates(next, requests[1..])
  }

  /** A cancelled order stays cancelled, whatever is requested. */
  lemma {:induction false} CancelledIsTerminal(requests: seq<ShippingStatus>)
    ensures ApplyUpdates(Cancelled, requests) == Cancelled
    decreases |requests|
  {
    if requests != [] {
      CancelledIsTerminal(requests[1..]);
    }
  }

  /** A delivered order stays delivered, whatever is requested. */
  lemma {:induction false} DeliveredIsTerminal(requests: seq<ShippingStatus>)
    ensures ApplyUpdates(Delivered, requests) == Delivered
    decreases |requests|
  {
    if requests != [] {
      DeliveredIsTerminal(requests[1..]);
    }
  }

  /** Because shipped has no rule, a shipped order can be set back to
      pending and then shipped or cancelled again. */
  lemma ShippedCanReturnToPending()
    ensures ApplyUpdates(Shipped, [Pending]) == Pending
    ensures ApplyUpdates(Shipped, [Pending, Cancelled]) == Cancelled
  {
  }
}
