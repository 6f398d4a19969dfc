/** The product views (store/views/product.py): listing with filters and
    pages, the detail view, and the create, patch and delete views that
    write the product table. */
module ProductView {
  import opened Common
  import opened Models
  import opened ProductSerializer
  import opened Exceptions

  /** A product as the serializer renders it. */
  datatype ProductData = ProductData(id: ProductId, name: string, description: string, price: Cents,
                                     stock: int, category: CategoryId, image: bool)

  /** What the "data" key of a product response holds. */
  datatype ProductBody =
    | Item(item: ProductData)
    | Items(items: seq<ProductData>)
    | Problems(errors: FieldErrorMap)
    | NoBody                              // {}

  function Serialize(id: ProductId, p: Product): ProductData
  {
    ProductData(id, p.name, p.description, p.price, p.stock, p.category, p.hasImage)
  }

  /** An envelope produced by the exception handler, whose data is {}. */
  function FromHandler(e: Envelope<Empty>): (r: Envelope<ProductBody>)
    ensures r.status == e.status && r.code == e.code && r.message == e.message && r.success == e.success
    ensures e.data.Some? ==> r.data == Some(NoBody)
  {
    Envelope(e.status, e.code, e.message, if e.data.Some? then Some(NoBody) else None, e.success)
  }

  // ---------------------------------------------------------------------------
  // ProductListView.get

  /** The page query parameter: absent, a number, "last", or anything else. */
  datatype PageParam = FirstPage | PageNumber(n: int) | LastPage | NotANumber

  /** The query string. An absent or empty parameter is None; a page size
      that is not an integer is None as well. */
  datatype ListQuery = ListQuery(category: Option<string>, minPrice: Option<Cents>, maxPrice: Option<Cents>,
                                 pageSize: Option<int>, page: PageParam)

  /** The filters that apply: a category id, and an inclusive price range. */
  datatype ListFilter = ListFilter(category: Option<CategoryId>, range: Option<(Cents, Cents)>) {
    predicate Admits(p: Product)
    {
      && (category.None? || p.category == category.value)
      && (range.None? || range.value.0 <= p.price <= range.value.1)
    }
  }

  const DefaultPageSize: int := 10
  const MaxPageSize: int := 100

  /** The index of the first category named `name`, if any. */
  function FirstNamed(categories: seq<Category>, name: string): (r: Option<nat>)
    ensures r.Some? ==> r.value < |categories| && categories[r.value].name == name
    ensures r.Some? ==> forall j :: 0 <= j < r.value ==> categories[j].name != name
    ensures r.None? <==> !HasCategoryNamed(categories, name)
    decreases |categories|
  {
    if categories == [] then None
    else if categories[0].name == name then Some(0)
    else match FirstNamed(categories[1..], name)
      case None => None
      case Some(i) => Some(i + 1)
  }

  /** The category filter: it applies only when a non-empty name is given
      and a category with exactly that name exists; otherwise the list is
      left unfiltered by category. */
  function CategoryFilter(categories: seq<Category>, name: Option<string>): (r: Option<CategoryId>)
    ensures r.None? <==> name.None? || name.value == "" || !HasCategoryNamed(categories, name.value)
    ensures r.Some? ==> exists i :: 0 <= i < |categories| && categories[i].name == name.value && categories[i].id == r.value
  {
    if name.None? || name.value == "" then None
    else match FirstNamed(categories, name.value)
      case None => None
      case Some(i) => Some(categories[i].id)
  }

  /** The price range applies only when both bounds are given. */
  function FilterOf(categories: seq<Category>, q: ListQuery): (f: ListFilter)
    ensures f.range.Some? <==> q.minPrice.Some? && q.maxPrice.Some?
    ensures f.range.Some? ==> f.range.value == (q.minPrice.value, q.maxPrice.value)
    ensures f.category == CategoryFilter(categories, q.category)
  {
    ListFilter(CategoryFilter(categories, q.category),
               if q.minPrice.Some? && q.maxPrice.Some? then Some((q.minPrice.value, q.maxPrice.value)) else None)
  }

  /** The rows the filters admit, in their original order. */
  function Filter(rows: seq<(ProductId, Product)>, f: ListFilter): (r: seq<(ProductId, Product)>)
    ensures |r| <= |rows|
    decreases |rows|
  {
    if rows == [] then []
    else
      var last := rows[|rows| - 1];
      Filter(rows[..|rows| - 1], f) + (if f.Admits(last.1) then [last] else [])
  }

  /** Each admitted row occurs as often as in the table, the others not at
      all. */
  lemma {:induction false} FilterCount(rows: seq<(ProductId, Product)>, f: ListFilter, x: (ProductId, Product))
    ensures multiset(Filter(rows, f))[x] == if f.Admits(x.1) then multiset(rows)[x] else 0
    decreases |rows|
  {
    if rows != [] {
      var n := |rows| - 1;
      FilterCount(rows[..n], f, x);
      assert rows == rows[..n] + [rows[n]];
    }
  }

  /** A row is kept exactly when it is in the table and admitted. */
  lemma FilterMembers(rows: seq<(ProductId, Product)>, f: ListFilter, x: (ProductId, Product))
    ensures x in Filter(rows, f) <==> x in rows && f.Admits(x.1)
  {
    FilterCount(rows, f, x);
    assert x in Filter(rows, f) <==> multiset(Filter(rows, f))[x] > 0;
    assert x in rows <==> multiset(rows)[x] > 0;
  }

  /** The admitted rows keep the table order: filtering a concatenation
      gives the admitted rows of the first part, then those of the second. */
  lemma {:induction false} FilterAppend(a: seq<(ProductId, Product)>, b: seq<(ProductId, Product)>, f: ListFilter)
    ensures Filter(a + b, f) == Filter(a, f) + Filter(b, f)
    decreases |b|
  {
    if b == [] {
      assert a + b == a;
    } else {
      var init, last := b[..|b| - 1], b[|b| - 1];
      FilterAppend(a, init, f);
      assert b == init + [last];
      assert a + b == (a + init) + [last];
      FilterAppendStep(a, init, last, f);
    }
  }

  /** The inductive step of FilterAppend: one more row at the end of the
      second part. */
  lemma FilterAppendStep(a: seq<(ProductId, Product)>, init: seq<(ProductId, Product)>, last: (ProductId, Product), f: ListFilter)
    requires Filter(a + init, f) == Filter(a, f) + Filter(init, f)
    ensures Filter((a + init) + [last], f) == Filter(a, f) + Filter(init + [last], f)
  {
    FilterSnoc(a + init, last, f);
    FilterSnoc(init, last, f);
  }

  /** One more row: the filter of the rows before it, and the row itself if
      admitted. */
  lemma FilterSnoc(rows: seq<(ProductId, Product)>, x: (ProductId, Product), f: ListFilter)
    ensures Filter(rows + [x], f) == Filter(rows, f) + (if f.Admits(x.1) then [x] else [])
  {
    assert (rows + [x])[..|rows|] == rows;
  }

  /** The page size: the page_size parameter when it is a positive integer,
      capped at 100; otherwise 10. */
  function PageSize(param: Option<int>): (n: int)
    ensures 1 <= n <= MaxPageSize
    ensures param.None? || param.value <= 0 ==> n == DefaultPageSize
    ensures param.Some? && 0 < param.value ==> n == if param.value < MaxPageSize then param.value else MaxPageSize
  {
    match param
    case None => DefaultPageSize
    case Some(k) => if k <= 0 then DefaultPageSize else if k < MaxPageSize then k else MaxPageSize
  }

  /** Pages of `size` items: the fewest pages that hold every item, so the
      last page is never empty; an empty list still has one (empty) page. */
  function PageCount(count: nat, size: int): (n: nat)
    requires size >= 1
    ensures n >= 1
    ensures count <= n * size
    ensures count > 0 ==> (n - 1) * size < count
    ensures count == 0 ==> n == 1
  {
    if count == 0 then 1
    else
      var m := count + size - 1;
      assert m == m / size * size + m % size;
      m / size
  }

  /** The page requested, when it exists: no parameter is page 1, "last"
      the last page, a number the page of that number when it is between 1
      and the page count; anything else is no page. */
  function PageIndex(param: PageParam, pages: nat): (k: Option<nat>)
    requires pages >= 1
    ensures k.Some? ==> 1 <= k.value <= pages
    ensures param.FirstPage? ==> k == Some(1)
    ensures param.LastPage? ==> k == Some(pages)
    ensures param.PageNumber? ==> (k.Some? <==> 1 <= param.n <= pages) && (k.Some? ==> k.value == param.n)
    ensures param.NotANumber? ==> k.None?
  {
    match param
    case FirstPage => Some(1)
    case LastPage => Some(pages)
    case PageNumber(n) => if 1 <= n <= pages then Some(n) else None
    case NotANumber => None
  }

  function Min(a: int, b: int): int { if a < b then a else b }

  /** Page `k` (from 1) of `xs`. */
  function Page<T>(xs: seq<T>, size: int, k: nat): (r: seq<T>)
    requires size >= 1 && k >= 1
    ensures |r| <= size
  {
    xs[Min((k - 1) * size, |xs|)..Min(k * size, |xs|)]
  }

  /** Pages 1 to k, one after another. */
  function Pages<T>(xs: seq<T>, size: int, k: nat): seq<T>
    requires size >= 1
  {
    if k == 0 then [] else Pages(xs, size, k - 1) + Page(xs, size, k)
  }

  /** The first k pages are the first k * size items. */
  lemma {:induction false} PagesArePrefix<T>(xs: seq<T>, size: int, k: nat)
    requires size >= 1
    ensures Pages(xs, size, k) == xs[..Min(k * size, |xs|)]
  {
    if k > 0 {
      PagesArePrefix(xs, size, k - 1);
      assert (k - 1) * size <= k * size;
      var lo, hi := Min((k - 1) * size, |xs|), Min(k * size, |xs|);
      assert xs[..lo] + xs[lo..hi] == xs[..hi];
    }
  }

  /** Every item is on exactly one page: the pages together are the list. */
  lemma PagesCoverList<T>(xs: seq<T>, size: int)
    requires size >= 1
    ensures Pages(xs, size, PageCount(|xs|, size)) == xs
  {
    PagesArePrefix(xs, size, PageCount(|xs|, size));
  }

  function SerializeRows(rows: seq<(ProductId, Product)>): (r: seq<ProductData>)
    ensures |r| == |rows|
    ensures forall i :: 0 <= i < |rows| ==> r[i] == Serialize(rows[i].0, rows[i].1)
  {
    seq(|rows|, i requires 0 <= i < |rows| => Serialize(rows[i].0, rows[i].1))
  }

  /** The selected rows: the table, filtered. */
  function Selected(rows: seq<(ProductId, Product)>, categories: seq<Category>, q: ListQuery): seq<(ProductId, Product)>
  {
    Filter(rows, FilterOf(categories, q))
  }

  /** GET /products. `rows` is the table in the order the database returns
      it (the query has no ordering). A page that does not exist raises
      NotFound("Invalid page."), which the exception handler answers. */
  function ListProducts(rows: seq<(ProductId, Product)>, categories: seq<Category>, q: ListQuery): (r: Envelope<ProductBody>)
    ensures r.code == r.status
    ensures r.status == 200 || r == Envelope(404, 404, "Invalid page.", Some(NoBody), false)
    ensures var selected := Selected(rows, categories, q);
            var size := PageSize(q.pageSize);
            var k := PageIndex(q.page, PageCount(|selected|, size));
            && (r.status == 200 <==> k.Some?)
            && (k.Some? ==> r.data == Some(Items(SerializeRows(Page(selected, size, k.value)))))
  {
    var selected := Selected(rows, categories, q);
    var size := PageSize(q.pageSize);
    match PageIndex(q.page, PageCount(|selected|, size))
    case None => FromHandler(HandleException(NotFound("Invalid page.")))
    case Some(k) =>
      Envelope(200, 200, "Successfully retrieved all products", Some(Items(SerializeRows(Page(selected, size, k)))), true)
  }

  /** A listed product passes every filter in force: it is in the named
      category when that category exists, and its price is within both
      bounds, inclusive, when both are given. */
  lemma ListedProductsMatch(rows: seq<(ProductId, Product)>, categories: seq<Category>, q: ListQuery, x: (ProductId, Product))
    requires x in Selected(rows, categories, q)
    ensures x in rows
    ensures q.category.Some? && q.category.value != "" && HasCategoryNamed(categories, q.category.value) ==>
              exists i :: 0 <= i < |categories| && categories[i].name == q.category.value && categories[i].id == x.1.category
    ensures q.minPrice.Some? && q.maxPrice.Some? ==> q.minPrice.value <= x.1.price <= q.maxPrice.value
  {
    FilterMembers(rows, FilterOf(categories, q), x);
  }

  /** An unknown category name filters nothing out, and with one bound
      missing no price filter applies: every row is selected. */
  lemma UnknownCategoryIgnored(rows: seq<(ProductId, Product)>, categories: seq<Category>, q: ListQuery)
    requires q.category.None? || !HasCategoryNamed(categories, q.category.value)
    requires q.minPrice.None? || q.maxPrice.None?
    ensures Selected(rows, categories, q) == rows
  {
    FilterAdmitsAll(rows, FilterOf(categories, q));
  }

  lemma {:induction false} FilterAdmitsAll(rows: seq<(ProductId, Product)>, f: ListFilter)
    requires f.category.None? && f.range.None?
    ensures Filter(rows, f) == rows
    decreases |rows|
  {
    if rows != [] {
      FilterAdmitsAll(rows[..|rows| - 1], f);
    }
  }

  // ---------------------------------------------------------------------------
  // ProductDetailView.get

  /** GET /products/<pk>: the product, or the framework's 404 through the
      exception handler. */
  function ProductDetail(products: map<ProductId, Product>, id: ProductId): (r: Envelope<ProductBody>)
    ensures id in products ==>
              r == Envelope(200, 200, "Successfully retrieved single product", Some(Item(Serialize(id, products[id]))), true)
    ensures id !in products ==> r == Envelope(404, 404, "No Product matches the given query.", Some(NoBody), false)
  {
    if id in products then
      Envelope(200, 200, "Successfully retrieved single product", Some(Item(Serialize(id, products[id]))), true)
    else FromHandler(HandleException(NotFound("No Product matches the given query.")))
  }

  // ---------------------------------------------------------------------------
  // ProductCreateView

  /** The create view answers with an envelope, or with the bare field
      errors and no envelope. */
  datatype CreateResponse = CreatedProduct(response: Envelope<ProductBody>) | BareErrors(status: int, errors: FieldErrorMap)

  /** POST /products/create by the authenticated `user`: every field is
      required, and the new row's owner is the requesting user. */
  method CreateProduct(db: Store, user: UserId, input: ProductInput) returns (r: CreateResponse)
    requires db.ProductsValid()
    modifies db`products, db`nextProductId
    ensures db.ProductsValid()
    ensures ValidateProduct(input, false, db.categories).Err? ==>
              && r == BareErrors(400, ValidateProduct(input, false, db.categories).error)
              && db.products == old(db.products) && db.nextProductId == old(db.nextProductId)
    ensures ValidateProduct(input, false, db.categories).Ok? ==>
              var id := old(db.nextProductId);
              && input.name.Some? && input.description.Some? && input.price.Some? && input.stock.Some? && input.category.Some?
              && var p := Product(input.name.value, input.description.value, input.price.value, input.stock.value,
                                  input.category.value, true, user);
              && db.products == old(db.products)[id := p] && db.nextProductId == id + 1
              && r == CreatedProduct(Envelope(201, 201, "Product successfully created", Some(Item(Serialize(id, p))), true))
  {
    var checked := ValidateProduct(input, false, db.categories);
    if checked.Err? {
      return BareErrors(400, checked.error);
    }
    CreateNeedsEveryField(input, db.categories);
    var p := Product(input.name.value, input.description.value, input.price.value, input.stock.value,
                     input.category.value, input.image, user);
    var id := db.nextProductId;
    db.products := db.products[id := p];
    db.nextProductId := id + 1;
    return CreatedProduct(Envelope(201, 201, "Product successfully created", Some(Item(Serialize(id, p))), true));
  }

  // ---------------------------------------------------------------------------
  // ProductUpdateView.patch

  /** The product with every supplied field replaced. */
  function Apply(p: Product, input: ProductInput): (q: Product)
    ensures q.createdBy == p.createdBy
  {
    Product(input.name.GetOr(p.name), input.description.GetOr(p.description), input.price.GetOr(p.price),
            input.stock.GetOr(p.stock), input.category.GetOr(p.category), input.image || p.hasImage, p.createdBy)
  }

  /** A patch changes exactly the supplied fields, and an empty patch
      changes nothing. */
  lemma ApplyChangesOnlySupplied(p: Product, input: ProductInput)
    ensures var q := Apply(p, input);
      && (input.name.None? ==> q.name == p.name) && (input.name.Some? ==> q.name == input.name.value)
      && (input.description.None? ==> q.description == p.description)
      && (input.description.Some? ==> q.description == input.description.value)
      && (input.price.None? ==> q.price == p.price) && (input.price.Some? ==> q.price == input.price.value)
      && (input.stock.None? ==> q.stock == p.stock) && (input.stock.Some? ==> q.stock == input.stock.value)
      && (input.category.None? ==> q.category == p.category)
      && (input.category.Some? ==> q.category == input.category.value)
    ensures Apply(p, ProductInput(None, None, None, None, None, false)) == p
  {
  }

  /** PATCH /products/<pk>/update by the authenticated `user`: 404 for a
      missing product, 403 for someone else's, 400 "Invalid data" for a
      patch that fails the checks, and otherwise only the supplied fields
      change. */
  method PatchProduct(db: Store, user: UserId, id: ProductId, input: ProductInput) returns (r: Envelope<ProductBody>)
    requires db.ProductsValid()
    modifies db`products
    ensures db.ProductsValid()
    ensures r.code == r.status && r.success == (r.status == 200)
    ensures r.status != 200 ==> db.products == old(db.products)
    ensures id !in old(db.products) ==> r == Envelope(404, 404, "Product not found", None, false)
    ensures id in old(db.products) && old(db.products)[id].createdBy != user ==>
              r == Envelope(403, 403, "You do not have permission to edit this product.", None, false)
    ensures id in old(db.products) && old(db.products)[id].createdBy == user ==>
              var checked := ValidateProduct(input, true, db.categories);
              && (checked.Err? ==> r == Envelope(400, 400, "Invalid data", Some(Problems(checked.error)), false))
              && (checked.Ok? ==>
                    var p := Apply(old(db.products)[id], input);
                    && db.products == old(db.products)[id := p]
                    && r == Envelope(200, 200, "Product successfully updated", Some(Item(Serialize(id, p))), true))
  {
    if id !in db.products {
      return Envelope(404, 404, "Product not found", None, false);
    }
    var product := db.products[id];
    if product.createdBy != user {
      return Envelope(403, 403, "You do not have permission to edit this product.", None, false);
    }
    var checked := ValidateProduct(input, true, db.categories);
    if checked.Err? {
      return Envelope(400, 400, "Invalid data", Some(Problems(checked.error)), false);
    }
    PatchValuesInBounds(input, db.categories);
    var updated := Apply(product, input);
    db.products := db.products[id := updated];
    return Envelope(200, 200, "Product successfully updated", Some(Item(Serialize(id, updated))), true);
  }

  // ---------------------------------------------------------------------------
  // ProductDeleteView.delete

  /** DELETE /products/<id>/delete by the authenticated `user`: the lookup
      is by id and owner together, so a missing product and someone else's
      give the same 404. Deleting cascades to the product's order items. */
  method DeleteProduct(db: Store, user: UserId, id: ProductId) returns (r: Envelope<ProductBody>)
    requires db.ProductsValid() && db.OrdersValid()
    modifies db`products, db`orderItems
    ensures db.ProductsValid() && db.OrdersValid()
    ensures r.code == r.status && r.success == (r.status == 200) && r.data == Some(NoBody)
    ensures id in old(db.products) && old(db.products)[id].createdBy == user ==>
              && db.products == old(db.products) - {id}
              && db.orderItems == ItemsWithout(old(db.orderItems), {id})
              && r.status == 200 && r.message == "Product successfully deleted"
    ensures !(id in old(db.products) && old(db.products)[id].createdBy == user) ==>
              && db.products == old(db.products) && db.orderItems == old(db.orderItems)
              && r.status == 404 && r.message == "Product not found or you don't have permission to delete it."
  {
    if id !in db.products || db.products[id].createdBy != user {
      return Envelope(404, 404, "Product not found or you don't have permission to delete it.", Some(NoBody), false);
    }
    var remaining := ItemsWithout(db.orderItems, {id});
    forall i | 0 <= i < |remaining|
      ensures remaining[i] in db.orderItems && remaining[i].product != id
    {
      ItemsWithoutMembers(db.orderItems, {id}, remaining[i]);
    }
    db.products := db.products - {id};
    db.orderItems := remaining;
    return Envelope(200, 200, "Product successfully deleted", Some(NoBody), true);
  }
}
