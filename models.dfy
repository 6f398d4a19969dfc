/** The tables of the store (the files under store/models) as values, and the database
    holding them as one object whose fields the views update in place.

    Money is held in whole cents: the decimal columns have two places. */
module Models {
  import opened Common

  type UserId = int
  type ProductId = int
  type CategoryId = int
  type CartId = int
  type OrderId = int
  type Cents = int

  /** Order.SHIPPING_STATUS_CHOICES. */
  datatype ShippingStatus = Pending | Shipped | Delivered | Cancelled

  /** The stored value of each choice. */
  function StatusValue(s: ShippingStatus): string
  {
    match s
    case Pending => "pending"
    case Shipped => "shipped"
    case Delivered => "delivered"
    case Cancelled => "cancelled"
  }

  /** The choice a submitted value names, if any: the choice check the
      framework derives from the field's `choices`. */
  function ParseStatus(v: string): (r: Option<ShippingStatus>)
    ensures r.Some? ==> StatusValue(r.value) == v
    ensures r.None? ==> forall s :: StatusValue(s) != v
  {
    if v == "pending" then Some(Pending)
    else if v == "shipped" then Some(Shipped)
    else if v == "delivered" then Some(Delivered)
    else if v == "cancelled" then Some(Cancelled)
    else None
  }

  lemma StatusValueRoundTrip(s: ShippingStatus)
    ensures ParseStatus(StatusValue(s)) == Some(s)
  {
  }

  /** Account fields the views read and write. The password hash is not
      kept: hashing belongs to the framework's user manager. */
  datatype User = User(email: string, name: string, address: string, phoneNumber: string)

  datatype Category = Category(id: CategoryId, name: string, description: string, createdBy: UserId)

  /** A product row; `hasImage` stands for the stored image file. */
  datatype Product = Product(name: string, description: string, price: Cents, stock: int,
                             category: CategoryId, hasImage: bool, createdBy: UserId)

  datatype Order = Order(user: UserId, shippingAddress: string, paymentMethod: string,
                         totalPrice: Cents, shippingStatus: ShippingStatus)

  /** A cart line: its own row id and the units held. */
  datatype CartItem = CartItem(id: int, quantity: int)

  /** `price` is the line total at order time, not a reference to the product. */
  datatype OrderItem = OrderItem(order: OrderId, product: ProductId, quantity: int, price: Cents)

  /** A freshly inserted order: total_price and shipping_status take their
      column defaults. */
  function NewOrder(user: UserId, shippingAddress: string, paymentMethod: string): (o: Order)
    ensures o.shippingStatus == Pending && o.totalPrice == 0
    ensures o.user == user && o.shippingAddress == shippingAddress && o.paymentMethod == paymentMethod
  {
    Order(user, shippingAddress, paymentMethod, 0, Pending)
  }

  /** Category.created_by's column default. */
  const DefaultCategoryOwner: UserId := 1

  predicate HasCategory(categories: seq<Category>, id: CategoryId)
  {
    exists i :: 0 <= i < |categories| && categories[i].id == id
  }

  predicate HasCategoryNamed(categories: seq<Category>, name: string)
  {
    exists i :: 0 <= i < |categories| && categories[i].name == name
  }

  ghost predicate UniqueCategoryIds(categories: seq<Category>)
  {
    forall i, j :: 0 <= i < j < |categories| ==> categories[i].id != categories[j].id
  }

  /** Category.name is declared unique. */
  ghost predicate UniqueCategoryNames(categories: seq<Category>)
  {
    forall i, j :: 0 <= i < j < |categories| ==> categories[i].name != categories[j].name
  }

  ghost predicate OneCartPerUser(carts: map<CartId, UserId>)
  {
    forall c, d :: c in carts && d in carts && carts[c] == carts[d] ==> c == d
  }

  ghost predicate UniqueEmails(users: map<UserId, User>)
  {
    forall u, v :: u in users && v in users && users[u].email == users[v].email ==> u == v
  }

  // ---------------------------------------------------------------------------
  // The constraints the schema and the views maintain, table by table.

  /** Ids below the sequence; email is a unique column. */
  ghost predicate UsersOk(users: map<UserId, User>, nextUserId: int)
  {
    (forall u :: u in users ==> u < nextUserId) && UniqueEmails(users)
  }

  /** Ids below the sequence and distinct; name is a unique column; the
      owner is an existing user (a foreign key). */
  ghost predicate CategoriesOk(categories: seq<Category>, nextCategoryId: int, users: map<UserId, User>)
  {
    && (forall i :: 0 <= i < |categories| ==> categories[i].id < nextCategoryId)
    && UniqueCategoryIds(categories)
    && UniqueCategoryNames(categories)
    && (forall i :: 0 <= i < |categories| ==> categories[i].createdBy in users)
  }

  /** Ids below the sequence, stock never negative (a positive-integer
      column), every product in an existing category. */
  ghost predicate ProductsOk(products: map<ProductId, Product>, nextProductId: int, categories: seq<Category>)
  {
    && (forall p :: p in products ==> p < nextProductId)
    && (forall p :: p in products ==> products[p].stock >= 0)
    && (forall p :: p in products ==> HasCategory(categories, products[p].category))
  }

  /** Ids below the sequences, at most one cart per user, every cart item
      in an existing cart. */
  ghost predicate CartsOk(carts: map<CartId, UserId>, nextCartId: int,
                          cartItems: map<(CartId, ProductId), CartItem>, nextCartItemId: int)
  {
    && (forall c :: c in carts ==> c < nextCartId)
    && OneCartPerUser(carts)
    && (forall k :: k in cartItems ==> k.0 in carts && cartItems[k].id < nextCartItemId)
  }

  /** Ids below the sequence, every order placed by an existing user, every
      item in an existing order for an existing product with a non-negative
      quantity (a positive-integer column). */
  ghost predicate OrdersOk(orders: map<OrderId, Order>, nextOrderId: int, users: map<UserId, User>,
                           orderItems: seq<OrderItem>, products: map<ProductId, Product>)
  {
    && (forall o :: o in orders ==> o < nextOrderId)
    && (forall o :: o in orders ==> orders[o].user in users)
    && (forall i :: 0 <= i < |orderItems| ==> orderItems[i].order in orders)
    && (forall i :: 0 <= i < |orderItems| ==> orderItems[i].product in products)
    && (forall i :: 0 <= i < |orderItems| ==> orderItems[i].quantity >= 0)
  }

  /** The database. Rows are keyed by their primary key; categories are kept
      in creation order; a cart item is keyed by its (cart, product) pair;
      the `next*` counters are the auto-increment sequences. */
  class Store {
    var users: map<UserId, User>
    var categories: seq<Category>
    var products: map<ProductId, Product>
    var carts: map<CartId, UserId>
    var cartItems: map<(CartId, ProductId), CartItem>
    var orders: map<OrderId, Order>
    var orderItems: seq<OrderItem>
    var nextUserId: int
    var nextCategoryId: int
    var nextProductId: int
    var nextCartId: int
    var nextOrderId: int
    var nextCartItemId: int

    /** The constraints the schema and the views maintain: see the parts. */
    ghost predicate Valid()
      reads this
    {
      UsersValid() && CategoriesValid() && ProductsValid() && CartsValid() && OrdersValid()
    }

    ghost predicate UsersValid()
      reads this`users, this`nextUserId
    {
      UsersOk(users, nextUserId)
    }

    ghost predicate CategoriesValid()
      reads this`categories, this`nextCategoryId, this`users
    {
      CategoriesOk(categories, nextCategoryId, users)
    }

    ghost predicate ProductsValid()
      reads this`products, this`nextProductId, this`categories
    {
      ProductsOk(products, nextProductId, categories)
    }

    ghost predicate CartsValid()
      reads this`carts, this`nextCartId, this`cartItems, this`nextCartItemId
    {
      CartsOk(carts, nextCartId, cartItems, nextCartItemId)
    }

    ghost predicate OrdersValid()
      reads this`orders, this`nextOrderId, this`users, this`orderItems, this`products
    {
      OrdersOk(orders, nextOrderId, users, orderItems, products)
    }

    constructor ()
      ensures Valid()
      ensures users == map[] && categories == [] && products == map[]
      ensures carts == map[] && cartItems == map[] && orders == map[] && orderItems == []
    {
      users, categories, products := map[], [], map[];
      carts, cartItems, orders, orderItems := map[], map[], map[], [];
      nextUserId, nextCategoryId, nextProductId, nextCartId, nextOrderId, nextCartItemId := 1, 1, 1, 1, 1, 1;
    }
  }

  // ---------------------------------------------------------------------------
  // Cascading deletes: OrderItem.product and Product.category are declared
  // with on_delete=CASCADE.

  /** The order items that survive deleting the products in `gone`, in order. */
  function ItemsWithout(items: seq<OrderItem>, gone: set<ProductId>): (r: seq<OrderItem>)
    ensures |r| <= |items|
  {
    if items == [] then []
    else (if items[0].product in gone then [] else [items[0]]) + ItemsWithout(items[1..], gone)
  }

  /** Each surviving item occurs as often as before, the others not at all. */
  lemma {:induction false} ItemsWithoutCount(items: seq<OrderItem>, gone: set<ProductId>, x: OrderItem)
    ensures multiset(ItemsWithout(items, gone))[x] == if x.product in gone then 0 else multiset(items)[x]
    decreases |items|
  {
    if items != [] {
      ItemsWithoutCount(items[1..], gone, x);
      assert items == [items[0]] + items[1..];
    }
  }

  /** An item survives exactly when it was there and its product is not
      gone. */
  lemma ItemsWithoutMembers(items: seq<OrderItem>, gone: set<ProductId>, x: OrderItem)
    ensures x in ItemsWithout(items, gone) <==> x in items && x.product !in gone
  {
    ItemsWithoutCount(items, gone, x);
    assert x in ItemsWithout(items, gone) <==> multiset(ItemsWithout(items, gone))[x] > 0;
    assert x in items <==> multiset(items)[x] > 0;
  }

  /** Survivors keep their order: the items of a concatenation survive as
      those of the first part followed by those of the second. */
  lemma {:induction false} ItemsWithoutAppend(a: seq<OrderItem>, b: seq<OrderItem>, gone: set<ProductId>)
    ensures ItemsWithout(a + b, gone) == ItemsWithout(a, gone) + ItemsWithout(b, gone)
    decreases |a|
  {
    if a != [] {
      var head, rest := a[0], a[1..];
      ItemsWithoutAppend(rest, b, gone);
      assert a == [head] + rest;
      assert a + b == [head] + (rest + b);
      ItemsWithoutAppendStep(head, rest, b, gone);
    } else {
      assert a + b == b;
    }
  }

  /** The inductive step of ItemsWithoutAppend: one more item at the front
      of the first part. */
  lemma ItemsWithoutAppendStep(head: OrderItem, rest: seq<OrderItem>, b: seq<OrderItem>, gone: set<ProductId>)
    requires ItemsWithout(rest + b, gone) == ItemsWithout(rest, gone) + ItemsWithout(b, gone)
    ensures ItemsWithout([head] + (rest + b), gone) == ItemsWithout([head] + rest, gone) + ItemsWithout(b, gone)
  {
    ItemsWithoutCons(head, rest + b, gone);
    ItemsWithoutCons(head, rest, gone);
  }

  /** One more item at the front: kept unless its product is gone. */
  lemma ItemsWithoutCons(head: OrderItem, rest: seq<OrderItem>, gone: set<ProductId>)
    ensures ItemsWithout([head] + rest, gone) == (if head.product in gone then [] else [head]) + ItemsWithout(rest, gone)
  {
    assert ([head] + rest)[1..] == rest;
  }

  /** The products that survive deleting category `id`. */
  function ProductsOutside(products: map<ProductId, Product>, id: CategoryId): (r: map<ProductId, Product>)
    ensures forall p :: p in r <==> p in products && products[p].category != id
    ensures forall p :: p in r ==> r[p] == products[p]
  {
    map p | p in products && products[p].category != id :: products[p]
  }
}
