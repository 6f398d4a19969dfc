/** ProductSerializer (store/serializers/product.py): the field checks the
    framework derives from the Product columns and the serializer's
    `extra_kwargs`, then the serializer's own `validate`, which runs only
    when every field passed. */
module ProductSerializer {
  import opened Common
  import opened Models

  /** The writable fields as submitted; None is an absent field. `image`
      says whether a file was submitted. */
  datatype ProductInput = ProductInput(name: Option<string>, description: Option<string>, price: Option<Cents>,
                                       stock: Option<int>, category: Option<CategoryId>, image: bool)

  type FieldErrorMap = map<string, string>

  const NoFileMessage: string := "No file was submitted."
  const MaxDigitsMessage: string := "Ensure that there are no more than 10 digits in total."
  const MinValueMessage: string := "Ensure this value is greater than or equal to 0."
  const MaxValueMessage: string := "Ensure this value is less than or equal to 2147483647."
  const PriceMessage: string := "Price must be greater than zero."
  const StockMessage: string := "Stock quantity cannot be negative."

  /** Ten digits in all, two of them after the point. */
  const PriceBound: int := 10_000_000_000
  /** The largest value a positive-integer column holds. */
  const MaxStock: int := 2147483647

  function InvalidPkMessage(id: CategoryId): string
  {
    "Invalid pk \"" + IntToString(id) + "\" - object does not exist."
  }

  /** An absent field is an error only when the whole object is submitted;
      a present one is checked by `check`. */
  function Presence<T>(value: Option<T>, partial: bool, missing: string, check: T -> Option<string>): Option<string>
  {
    match value
    case None => if partial then None else Some(missing)
    case Some(v) => check(v)
  }

  function NameError(input: ProductInput, partial: bool): Option<string>
  {
    Presence(input.name, partial, RequiredMessage, v => CharFieldError(v, 255))
  }

  function DescriptionError(input: ProductInput, partial: bool): Option<string>
  {
    Presence(input.description, partial, RequiredMessage, v => if v == "" then Some(BlankMessage) else None)
  }

  function PriceError(input: ProductInput, partial: bool): Option<string>
  {
    Presence(input.price, partial, RequiredMessage,
             (c: Cents) => if c <= -PriceBound || PriceBound <= c then Some(MaxDigitsMessage) else None)
  }

  function StockError(input: ProductInput, partial: bool): Option<string>
  {
    Presence(input.stock, partial, RequiredMessage,
             (s: int) => if s < 0 then Some(MinValueMessage) else if s > MaxStock then Some(MaxValueMessage) else None)
  }

  function CategoryError(input: ProductInput, partial: bool, categories: seq<Category>): Option<string>
  {
    Presence(input.category, partial, RequiredMessage,
             (c: CategoryId) => if HasCategory(categories, c) then None else Some(InvalidPkMessage(c)))
  }

  function ImageError(input: ProductInput, partial: bool): Option<string>
  {
    if input.image || partial then None else Some(NoFileMessage)
  }

  /** Adds `key` to the map when the field reported an error. */
  function With(errors: FieldErrorMap, key: string, e: Option<string>): (r: FieldErrorMap)
    ensures key in r <==> key in errors || e.Some?
    ensures e.Some? ==> r[key] == e.value
    ensures forall k :: k != key ==> (k in r <==> k in errors) && (k in r ==> r[k] == errors[k])
  {
    if e.Some? then errors[key := e.value] else errors
  }

  /** The field errors, one message per failing field, keyed by field name. */
  function FieldErrors(input: ProductInput, partial: bool, categories: seq<Category>): (r: FieldErrorMap)
    ensures "name" in r <==> NameError(input, partial).Some?
    ensures "description" in r <==> DescriptionError(input, partial).Some?
    ensures "price" in r <==> PriceError(input, partial).Some?
    ensures "stock_quantity" in r <==> StockError(input, partial).Some?
    ensures "category" in r <==> CategoryError(input, partial, categories).Some?
    ensures "image" in r <==> ImageError(input, partial).Some?
    ensures "stock_quantity" in r ==> r["stock_quantity"] == StockError(input, partial).value
    ensures "price" in r ==> r["price"] == PriceError(input, partial).value
    ensures r.Keys <= {"name", "description", "price", "stock_quantity", "category", "image"}
  {
    var e := With(map[], "name", NameError(input, partial));
    var e := With(e, "description", DescriptionError(input, partial));
    var e := With(e, "price", PriceError(input, partial));
    var e := With(e, "stock_quantity", StockError(input, partial));
    var e := With(e, "category", CategoryError(input, partial, categories));
    With(e, "image", ImageError(input, partial))
  }

  /** validate: a present price must be positive, then a present stock must
      not be negative; the data is returned unchanged. */
  function ObjectError(input: ProductInput): Option<FieldErrorMap>
  {
    if input.price.Some? && input.price.value <= 0 then Some(map["price" := PriceMessage])
    else if input.stock.Some? && input.stock.value < 0 then Some(map["stock_quantity" := StockMessage])
    else None
  }

  /** is_valid(): the field checks, and `validate` only when they all pass. */
  function ValidateProduct(input: ProductInput, partial: bool, categories: seq<Category>): (r: Result<ProductInput, FieldErrorMap>)
    ensures r.Ok? ==> r.value == input
    ensures FieldErrors(input, partial, categories) != map[] ==> r == Err(FieldErrors(input, partial, categories))
  {
    var fields := FieldErrors(input, partial, categories);
    if fields != map[] then Err(fields)
    else match ObjectError(input)
      case Some(e) => Err(e)
      case None => Ok(input)
  }

  /** Accepted exactly when every field passes and a present price is
      positive; a non-positive price that passed the fields is reported
      alone under "price". */
  lemma PriceRule(input: ProductInput, partial: bool, categories: seq<Category>)
    ensures ValidateProduct(input, partial, categories).Ok? <==>
              FieldErrors(input, partial, categories) == map[] && (input.price.None? || input.price.value > 0)
    ensures FieldErrors(input, partial, categories) == map[] && input.price.Some? && input.price.value <= 0 ==>
              ValidateProduct(input, partial, categories) == Err(map["price" := PriceMessage])
  {
    if FieldErrors(input, partial, categories) == map[] && input.stock.Some? {
      assert "stock_quantity" !in FieldErrors(input, partial, categories);
    }
  }

  /** A negative stock is always caught by the field's minimum first, so
      validate's own stock message is never produced. */
  lemma StockMessageUnreachable(input: ProductInput, partial: bool, categories: seq<Category>)
    ensures var r := ValidateProduct(input, partial, categories);
            r.Err? && "stock_quantity" in r.error ==> r.error["stock_quantity"] != StockMessage
    ensures input.stock.Some? && input.stock.value < 0 ==>
              var r := ValidateProduct(input, partial, categories);
              r.Err? && "stock_quantity" in r.error && r.error["stock_quantity"] == MinValueMessage
  {
    var fields := FieldErrors(input, partial, categories);
    if fields == map[] && input.stock.Some? {
      assert "stock_quantity" !in fields;
    }
    if input.stock.Some? && input.stock.value < 0 {
      assert "stock_quantity" in fields;
    }
  }

  /** In a partial update an absent field is never reported. */
  lemma PartialSkipsAbsentFields(input: ProductInput, categories: seq<Category>)
    ensures input.name.None? ==> "name" !in FieldErrors(input, true, categories)
    ensures input.description.None? ==> "description" !in FieldErrors(input, true, categories)
    ensures input.price.None? ==> "price" !in FieldErrors(input, true, categories)
    ensures input.stock.None? ==> "stock_quantity" !in FieldErrors(input, true, categories)
    ensures input.category.None? ==> "category" !in FieldErrors(input, true, categories)
    ensures "image" !in FieldErrors(input, true, categories)
  {
  }

  /** When the whole object is submitted, all six fields are required, the
      image included, and an accepted one names an existing category with a
      positive price and a stock the column holds. */
  lemma CreateNeedsEveryField(input: ProductInput, categories: seq<Category>)
    requires ValidateProduct(input, false, categories).Ok?
    ensures input.name.Some? && input.description.Some? && input.price.Some?
    ensures input.stock.Some? && input.category.Some? && input.image
    ensures input.name.value != "" && |input.name.value| <= 255 && input.description.value != ""
    ensures 0 < input.price.value < PriceBound
    ensures 0 <= input.stock.value <= MaxStock
    ensures HasCategory(categories, input.category.value)
  {
    PriceRule(input, false, categories);
  }

  /** A partial update that passes leaves every supplied value within the
      column's bounds. */
  lemma PatchValuesInBounds(input: ProductInput, categories: seq<Category>)
    requires ValidateProduct(input, true, categories).Ok?
    ensures input.stock.Some? ==> 0 <= input.stock.value <= MaxStock
    ensures input.price.Some? ==> 0 < input.price.value
    ensures input.category.Some? ==> HasCategory(categories, input.category.value)
  {
    PriceRule(input, true, categories);
  }

  /** A patch of price -10.00 and stock -5 reports only the stock field's
      minimum: validate, which would report the price, never runs. */
  lemma NegativePriceAndStockReportsOnlyStock(categories: seq<Category>)
    ensures ValidateProduct(ProductInput(None, None, Some(-1000), Some(-5), None, false), true, categories)
              == Err(map["stock_quantity" := MinValueMessage])
  {
    var input := ProductInput(None, None, Some(-1000), Some(-5), None, false);
    var fields := FieldErrors(input, true, categories);
    assert fields.Keys == {"stock_quantity"};
    assert fields == map["stock_quantity" := MinValueMessage];
  }
}
