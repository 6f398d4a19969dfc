/** AddToCartView.post (store/views/cart.py): find the product, get or
    create the user's one cart, then validate and save the cart item. */
module CartView {
  import opened Common
  import opened Models
  import opened CartSerializer

  /** The request body: `product_id` and `quantity`, either of which may be
      absent. */
  datatype CartRequest = CartRequest(productId: Option<ProductId>, quantity: Option<int>)

  /** The serialized cart item: fields id, product and quantity. */
  datatype CartItemData = CartItemData(id: int, product: ProductId, quantity: int)

  /** The view either answers, or lets the serializer's error escape: the
      ValidationError raised inside create carries a bare string, which the
      exception handler cannot turn into an envelope. */
  datatype CartResult = Answered(response: Envelope<CartItemData>) | Raised(message: string)

  const ProductNotFound: string := "Product not found."

  /** The cart the user already holds, if any. */
  predicate HasCart(carts: map<CartId, UserId>, user: UserId)
  {
    exists c :: c in carts && carts[c] == user
  }

  /** Cart.objects.get_or_create(user=user): the user's cart if there is
      one, otherwise a new cart with the next id. Either way the user ends
      up with exactly one cart. */
  method GetOrCreateCart(db: Store, user: UserId) returns (cart: CartId)
    requires db.CartsValid()
    modifies db`carts, db`nextCartId
    ensures db.CartsValid()
    ensures cart in db.carts && db.carts[cart] == user
    ensures forall c :: c in db.carts && db.carts[c] == user ==> c == cart
    ensures HasCart(old(db.carts), user) ==> db.carts == old(db.carts) && db.nextCartId == old(db.nextCartId)
    ensures !HasCart(old(db.carts), user) ==>
              cart == old(db.nextCartId) && db.carts == old(db.carts)[cart := user] && db.nextCartId == cart + 1
  {
    if c :| c in db.carts && db.carts[c] == user {
      return c;
    }
    cart := db.nextCartId;
    db.carts := db.carts[cart := user];
    db.nextCartId := cart + 1;
  }

  /** POST /cart/add/ for the authenticated `user`. The product lookup comes
      first, so an unknown product creates no cart. Quantity defaults to 1.
      The cart is created before validation, so a rejected quantity still
      leaves the user with a cart. */
  method AddToCart(db: Store, user: UserId, req: CartRequest) returns (r: CartResult)
    requires db.Valid()
    modifies db`carts, db`nextCartId, db`cartItems, db`nextCartItemId
    ensures db.Valid()
    ensures req.productId.None? || req.productId.value !in db.products ==>
              && r == Answered(Envelope(404, 404, ProductNotFound, None, false))
              && db.carts == old(db.carts) && db.nextCartId == old(db.nextCartId)
              && db.cartItems == old(db.cartItems) && db.nextCartItemId == old(db.nextCartItemId)
    ensures req.productId.Some? && req.productId.value in db.products ==>
              && (HasCart(old(db.carts), user) ==> db.carts == old(db.carts) && db.nextCartId == old(db.nextCartId))
              && (!HasCart(old(db.carts), user) ==>
                    db.carts == old(db.carts)[old(db.nextCartId) := user] && db.nextCartId == old(db.nextCartId) + 1)
              && HasCart(db.carts, user)
              && (forall c :: c in db.carts && db.carts[c] == user ==>
                    var product := req.productId.value;
                    var stock := db.products[product].stock;
                    var quantity := req.quantity.GetOr(1);
                    var held := (c, product) in old(db.cartItems);
                    var existing := if held then Some(old(db.cartItems)[(c, product)].quantity) else None;
                    && (ValidateCartItem(stock, quantity).Some? ==>
                          && r == Answered(Envelope(400, 400, OutOfQuantity, None, false))
                          && db.cartItems == old(db.cartItems) && db.nextCartItemId == old(db.nextCartItemId))
                    && (ValidateCartItem(stock, quantity).None? && MergeQuantity(existing, quantity, stock).Err? ==>
                          && r == Raised(OutOfQuantity)
                          && db.cartItems == old(db.cartItems) && db.nextCartItemId == old(db.nextCartItemId))
                    && (ValidateCartItem(stock, quantity).None? && MergeQuantity(existing, quantity, stock).Ok? ==>
                          var n := MergeQuantity(existing, quantity, stock).value;
                          var itemId := if held then old(db.cartItems)[(c, product)].id else old(db.nextCartItemId);
                          && n <= stock
                          && db.cartItems == old(db.cartItems)[(c, product) := CartItem(itemId, n)]
                          && db.nextCartItemId == old(db.nextCartItemId) + (if held then 0 else 1)
                          && r == Answered(Envelope(200, 200, "Product added to cart successfully.",
                                                    Some(CartItemData(itemId, product, n)), true))))
    ensures r.Answered? ==> r.response.code == r.response.status && r.response.success == (r.response.status == 200)
  {
    if req.productId.None? || req.productId.value !in db.products {
      return Answered(Envelope(404, 404, ProductNotFound, None, false));
    }
    var product := req.productId.value;
    var stock := db.products[product].stock;
    var cart := GetOrCreateCart(db, user);
    var quantity := req.quantity.GetOr(1);
    var problem := ValidateCartItem(stock, quantity);
    if problem.Some? {
      return Answered(Envelope(400, 400, problem.value, None, false));
    }
    var saved := CreateCartItem(db, cart, product, quantity, stock);
    ghost var existing := if (cart, product) in old(db.cartItems) then Some(old(db.cartItems)[(cart, product)].quantity) else None;
    ValidatedAddWithinStock(existing, quantity, stock);
    match saved {
      case Err(message) =>
        return Raised(message);
      case Ok(item) =>
        return Answered(Envelope(200, 200, "Product added to cart successfully.",
                                 Some(CartItemData(item.id, product, item.quantity)), true));
    }
  }
}
