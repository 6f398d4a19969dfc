/** CartItemSerializer (store/serializers/cart.py): the stock check on the
    requested quantity, and the get-or-create of the (cart, product) row
    that merges a repeated add into the row already there. */
module CartSerializer {
  import opened Common
  import opened Models

  const OutOfQuantity: string := "Product out of quantity."

  /** validate: only the requested quantity is compared with the stock;
      asking for exactly the stock is accepted. */
  function ValidateCartItem(stock: int, quantity: int): (r: Option<string>)
    ensures r.None? <==> quantity <= stock
    ensures r.Some? ==> r.value == OutOfQuantity
  {
    if quantity > stock then Some(OutOfQuantity) else None
  }

  /** The quantity create stores for a row that held `existing` units
      (None when the row is new), or the error it raises. */
  function MergeQuantity(existing: Option<int>, quantity: int, stock: int): (r: Result<int, string>)
    ensures existing.None? ==> r == Ok(quantity)
    ensures existing.Some? ==>
              r == (if existing.value + quantity > stock then Err(OutOfQuantity) else Ok(existing.value + quantity))
  {
    match existing
    case None => Ok(quantity)
    case Some(e) =>
      var merged := e + quantity;
      if merged > stock then Err(OutOfQuantity) else Ok(merged)
  }

  /** A validated add never stores more than the stock: a new row holds the
      validated quantity, a merged one is checked again. */
  lemma ValidatedAddWithinStock(existing: Option<int>, quantity: int, stock: int)
    requires ValidateCartItem(stock, quantity).None?
    ensures MergeQuantity(existing, quantity, stock).Ok? ==> MergeQuantity(existing, quantity, stock).value <= stock
  {
  }

  /** The stored quantity after a series of adds against a fixed stock: each
      add is validated, then merged; a rejected add leaves the row as it was. */
  function AddSeries(existing: Option<int>, quantities: seq<int>, stock: int): Option<int>
    decreases |quantities|
  {
    if quantities == [] then existing
    else
      var q := quantities[0];
      var next := if ValidateCartItem(stock, q).Some? then existing
                  else match MergeQuantity(existing, q, stock)
                       case Ok(n) => Some(n)
                       case Err(_) => existing;
      AddSeries(next, quantities[1..], stock)
  }

  /** However many adds are made, a row starting absent or within stock
      stays within stock. */
  lemma {:induction false} AddSeriesWithinStock(existing: Option<int>, quantities: seq<int>, stock: int)
    requires existing.None? || existing.value <= stock
    ensures var r := AddSeries(existing, quantities, stock); r.None? || r.value <= stock
    decreases |quantities|
  {
    if quantities != [] {
      var q := quantities[0];
      if ValidateCartItem(stock, q).None? {
        ValidatedAddWithinStock(existing, q, stock);
      }
      var next := if ValidateCartItem(stock, q).Some? then existing
                  else match MergeQuantity(existing, q, stock)
                       case Ok(n) => Some(n)
                       case Err(_) => existing;
      AddSeriesWithinStock(next, quantities[1..], stock);
    }
  }

  /** validate never sees the quantity already in the cart: with 3 of 5
      units held, a second add of 3 passes validate and is refused by
      create. */
  lemma ValidateIgnoresHeldQuantity()
    ensures ValidateCartItem(5, 3).None?
    ensures MergeQuantity(Some(3), 3, 5) == Err(OutOfQuantity)
    ensures AddSeries(None, [3, 3], 5) == Some(3)
  {
  }

  /** create: get-or-create the (cart, product) row, then merge. A refused
      merge raises before the row is saved, so nothing is written; a new
      row takes the next row id. */
  method CreateCartItem(db: Store, cart: CartId, product: ProductId, quantity: int, stock: int) returns (r: Result<CartItem, string>)
    requires db.Valid() && cart in db.carts
    modifies db`cartItems, db`nextCartItemId
    ensures db.Valid()
    ensures var existing := if (cart, product) in old(db.cartItems) then Some(old(db.cartItems)[(cart, product)].quantity) else None;
            var merged := MergeQuantity(existing, quantity, stock);
            && (merged.Err? ==> r == Err(merged.error) && db.cartItems == old(db.cartItems) && db.nextCartItemId == old(db.nextCartItemId))
            && (merged.Ok? ==> r.Ok? && r.value.quantity == merged.value && db.cartItems == old(db.cartItems)[(cart, product) := r.value])
    ensures (cart, product) in old(db.cartItems) ==>
              db.nextCartItemId == old(db.nextCartItemId) && (r.Ok? ==> r.value.id == old(db.cartItems)[(cart, product)].id)
    ensures (cart, product) !in old(db.cartItems) ==>
              r == Ok(CartItem(old(db.nextCartItemId), quantity)) && db.nextCartItemId == old(db.nextCartItemId) + 1
  {
    var key := (cart, product);
    if key in db.cartItems {
      var item := db.cartItems[key];
      var merged := item.quantity + quantity;
      if merged > stock {
        return Err(OutOfQuantity);
      }
      var saved := item.(quantity := merged);
      db.cartItems := db.cartItems[key := saved];
      return Ok(saved);
    }
    var created := CartItem(db.nextCartItemId, quantity);
    db.nextCartItemId := db.nextCartItemId + 1;
    db.cartItems := db.cartItems[key := created];
    return Ok(created);
  }
}
