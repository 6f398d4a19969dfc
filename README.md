# Store core of a Django e-commerce backend, in Dafny

This project models the store logic of a Django REST e-commerce backend and
proves properties of it:

- order placement: a dry validation pass, then an item loop that decrements
  stock and accumulates the total;
- the shipping-status rule;
- adding to the cart, with a merge against stock;
- product and category validation, and the views that create, patch and
  delete them under an ownership check;
- product listing with filters and pages;
- signup and profile field checks;
- the exception handler's response envelope;
- parsing of the bearer header.

Money is held in whole cents. The database is one object, `Models.Store`,
with one field per table. Its invariant is split per table (`UsersValid`,
`CategoriesValid`, `ProductsValid`, `CartsValid`, `OrdersValid`), so each
view states which tables it keeps consistent.

Modules:

- `Common`: Option and Result, the response envelope, number formatting, and
  the framework's string-field check.
- `Models`: the rows, the shipping-status choices, the `Store` class and the
  cascading deletes.
- `OrderSerializer` and `OrderView`: order placement and the order create
  view.
- `CartSerializer` and `CartView`: adding to the cart.
- `ProductSerializer` and `ProductView`: product checks and views.
- `CategorySerializer` and `CategoryView`: category checks and views.
- `UserSerializer`: signup and profile checks.
- `Exceptions`: the exception handler.
- `Authentication`: the bearer-header authenticator.

Behaviours of the code that a reader of its names, messages and comments
might not expect, which the model keeps as written:

- **Transactions.** Order creation opens no transaction, so a failure
  part-way keeps the rows already written: the order row with total 0, the
  items inserted so far and the stock decrements made so far.
  `OrderSerializer.CreateOrder` and `OrderView.Post` state exactly what
  remains.
- **Leaving `shipped`.** `validate_shipping_status` guards `cancelled`,
  `delivered` and `pending` but has no branch for `shipped`, so from
  `shipped` every choice is accepted, including `pending`
  (`OrderSerializer.ShippedCanReturnToPending`).
- **Cart quantity.** `validate` compares only the requested quantity with
  stock. The sum with the quantity already held is checked later, in
  `create`, where a refusal escapes the exception handler's envelope
  (`CartSerializer.ValidateIgnoresHeldQuantity`).
- **Invalid or expired tokens.** The authenticator catches `ValueError` and
  a missing user, and turns them into 401 "Invalid token.". The token
  library's own error for an invalid or expired token is neither, so it
  escapes and the exception handler answers 500
  (`Authentication.RefusedTokenAnswers500`).
- **Order line prices.** A line's `price` is compared with the Decimal line
  total exactly as Python compares a JSON value with a Decimal. A price
  written with two decimals is refused unless it is a whole number of
  quarters (see "## Findings").
- **Category owner.** A new category is saved with the column default
  `created_by=1`. When no user 1 exists the insert fails and the handler
  answers 500 (`CategoryView.CreateCategory`).

## Model

| member | source | states |
|---|---|---|
| Common.CharFieldError | store/serializers/order.py:14-15 | a string field passes iff it is non-blank and within max_length; blank is reported before length |
| Common.IntToString | store/serializers/order.py:28 | the decimal text of an id ends in a digit and starts with '-' iff the id is negative |
| Common.IntToStringRoundTrip | store/serializers/order.py:28 | reading back the printed id, sign included, gives the id |
| Common.IntToStringInjective | store/serializers/order.py:28 | distinct ids give distinct `product_<id>` texts |
| Common.NatToStringRoundTrip | store/serializers/order.py:32 | reading back the printed number gives the number |
| Common.CentsToString | store/serializers/order.py:36 | the expected price is printed with exactly two decimals, with a leading '-' iff it is negative |
| Common.CentsToStringRoundTrip | store/serializers/order.py:36 | reading the printed price back, sign and both decimals included, gives the amount in cents |
| Models.ParseStatus | store/models/order.py:6-11 | a submitted value is a choice iff it is one of the four stored values |
| Models.StatusValueRoundTrip | store/models/order.py:18-21 | every status parses back from its stored value |
| Models.NewOrder | store/models/order.py:17-22 | a new order is pending with total 0 |
| Models.ItemsWithout | store/models/order.py:29 | at most as many items as before; with ItemsWithoutCount and ItemsWithoutAppend, exactly the items of other products, each as often as before, in the same order |
| Models.ItemsWithoutCount | store/models/order.py:29 | each item of a surviving product occurs as often as before, those of deleted products not at all |
| Models.ItemsWithoutMembers | store/models/order.py:29 | an item remains iff it was there and its product is not deleted |
| Models.ItemsWithoutAppend | store/models/order.py:29 | survivors keep their order: removal distributes over concatenation |
| Models.ProductsOutside | store/models/product.py:12-15 | deleting a category removes exactly its products, the rest unchanged |
| OrderSerializer.KeyNameInjective | store/serializers/order.py:28-39 | distinct error keys have distinct names, so no error overwrites another's key |
| OrderSerializer.FieldErrors | store/serializers/order.py:14-15 | shipping_address (255) and payment_method (50) are reported iff they fail the string-field check |
| OrderSerializer.PaymentMethodsPassFieldCheck | store/serializers/order.py:15 | each accepted payment method passes the field check |
| OrderSerializer.LinesErrorsKeys | store/serializers/order.py:20-36 | `product_<id>` is set iff some line names a missing product or asks more than its stock, holding that message; `product_<id>_price` iff some line for an existing product supplies a price Python finds unequal to the Decimal line total, holding the expected total |
| OrderSerializer.OrderErrorsEmpty | store/serializers/order.py:17-44 | no errors iff every product exists, each line is within the unchanged stock, every supplied price compares equal to the line total as Python compares a JSON value with a Decimal, and the payment method is allowed |
| OrderSerializer.PaymentMethodReported | store/serializers/order.py:38-39 | `payment_method` is reported iff the method is not one of the three |
| OrderSerializer.OmittedPriceNeverErrs | store/serializers/order.py:34-36 | a product whose lines supply no price never gets a price error |
| OrderSerializer.CorrectPriceAgrees | store/serializers/order.py:34-36 | under the intended comparison a price written as the line total, with two decimals or as a whole number, is accepted; a string, list or boolean never is |
| OrderSerializer.PriceMatchesOnlyIfAgrees | store/serializers/order.py:34-35 | the comparison as written accepts no number the intended one refuses |
| OrderSerializer.TwoDecimalMatchesOnlyQuarters | store/serializers/order.py:34-35 | a two-decimal price matches only a line total that is a whole number of quarters, and then only itself |
| OrderSerializer.TwoDecimalPriceRefused | store/serializers/order.py:20-44 | product 3 at 10.99 with one line of one unit at 10.99 gets exactly the error "should be 10.99", though the intended check agrees |
| OrderSerializer.Validate | store/serializers/order.py:17-44 | the loop returns the request unchanged iff the error map is empty, else exactly that map; nothing is written |
| OrderSerializer.RunLinesFrame | store/serializers/order.py:56-78 | the loop changes only stock, keeps it non-negative, and every item belongs to the order |
| OrderSerializer.RunLinesSuccess | store/serializers/order.py:55-80 | on completion: one item per line in order, priced price × quantity; the total is their sum; each stock drops by the quantity of the lines naming it |
| OrderSerializer.RunLinesSnoc | store/serializers/order.py:56-78 | the loop over a prefix extended by one line is one more step |
| OrderSerializer.FailureSticks | store/serializers/order.py:61-65 | once a line fails, later lines do nothing |
| OrderSerializer.RunFailureKinds | store/serializers/order.py:56-78 | the loop fails only on a vanished product or a database refusal |
| OrderSerializer.RunSucceedsOnlyIf | store/serializers/order.py:67-78 | a completed loop had non-negative quantities, known products and enough stock for all lines together |
| OrderSerializer.RunSucceedsIf | store/serializers/order.py:67-78 | those conditions make the loop complete |
| OrderSerializer.RunSucceedsIff | store/serializers/order.py:67-78 | the loop completes iff quantities are non-negative, products known, and stock covers the summed quantities |
| OrderSerializer.ValidatedRunFindsProducts | store/serializers/order.py:61-65 | after a passing validate the vanished-product error cannot occur |
| OrderSerializer.FindsProducts | store/serializers/order.py:61-65 | with every product present the loop never reports one vanished |
| OrderSerializer.RepeatedLinesPassValidateButNotCreate | store/serializers/order.py:31-32 | two lines of 3 against stock 5 pass validate but drive stock negative in create |
| OrderSerializer.StepAppends | store/serializers/order.py:67-78 | one step appends exactly its own item |
| OrderSerializer.InsertLine | store/serializers/order.py:57-78 | one turn of the loop writes the item and the stock as the step function says |
| OrderSerializer.InsertLines | store/serializers/order.py:56-78 | the loop writes exactly the items and stock of the specification run and returns its total |
| OrderSerializer.InsertOrder | store/serializers/order.py:49-53 | the order row is inserted under the next id |
| OrderSerializer.SaveTotal | store/serializers/order.py:80-81 | only the order's total changes |
| OrderSerializer.PlaceOrder | store/serializers/order.py:49-81 | the database afterwards is the run's stock and items; the order has the total iff the loop completed |
| OrderSerializer.CreateOrder | store/serializers/order.py:46-91 | an unknown user fails with nothing written; otherwise as PlaceOrder, keeping all table invariants |
| OrderSerializer.ValidateShippingStatus | store/serializers/order.py:117-124 | cancelled refuses all; delivered accepts only delivered; pending only shipped or cancelled; shipped accepts any choice |
| OrderSerializer.CancelledIsTerminal | store/serializers/order.py:118-119 | no series of updates leaves cancelled |
| OrderSerializer.DeliveredIsTerminal | store/serializers/order.py:120-121 | no series of updates leaves delivered |
| OrderSerializer.ShippedCanReturnToPending | store/serializers/order.py:117-124 | a shipped order can go back to pending and then be cancelled |
| OrderView.CreatedResponse | store/views/order.py:14-46 | 201 iff created; the missing user gives 404 with the lookup message; a database refusal gives 400 "Integrity error occurred." carrying the violation; a vanished product 500 "An unexpected error occurred."; code equals status |
| OrderView.Post | store/views/order.py:9-46 | field or validate errors give 400 "Failed to create order" with that map and write nothing; unknown user 404, nothing written; otherwise the order row is inserted under the next id, stock and items are as the run leaves them, the total is saved iff it completes, 201 iff quantities are non-negative and stock covers the lines, else 400 "Integrity error occurred." with the partial writes kept; never 500 |
| CartSerializer.ValidateCartItem | store/serializers/cart.py:9-16 | refused with "Product out of quantity." iff the requested quantity exceeds stock; equal passes |
| CartSerializer.MergeQuantity | store/serializers/cart.py:24-33 | a new row gets the quantity; an existing one old + new, refused above stock |
| CartSerializer.ValidatedAddWithinStock | store/serializers/cart.py:13-31 | a validated add never stores more than the stock |
| CartSerializer.AddSeriesWithinStock | store/serializers/cart.py:13-35 | any series of adds keeps the stored quantity within stock |
| CartSerializer.ValidateIgnoresHeldQuantity | store/serializers/cart.py:13-31 | with 3 of 5 held, adding 3 passes validate and is refused by create, leaving 3 |
| CartSerializer.CreateCartItem | store/serializers/cart.py:18-36 | a refused merge writes nothing; otherwise the (cart, product) row holds the merged quantity and keeps its id, or is new with the next id |
| CartView.GetOrCreateCart | store/views/cart.py:27 | the user ends with exactly one cart, reused when it existed |
| CartView.AddToCart | store/views/cart.py:12-50 | unknown product 404 "Product not found." with carts and items unchanged; otherwise the user's cart is reused or created under the next id and no other cart changes; quantity defaults to 1; 400 on a refused quantity; 200 with the merged row under its kept id or the next item id, within stock |
| ProductSerializer.FieldErrors | store/serializers/product.py:8-15 | each of the six fields is reported iff its own check fails, and no other key appears |
| ProductSerializer.ValidateProduct | store/serializers/product.py:17-22 | field errors pre-empt validate; accepted data is returned unchanged |
| ProductSerializer.PriceRule | store/serializers/product.py:18-19 | accepted iff the fields pass and a present price is positive; otherwise only the price message |
| ProductSerializer.StockMessageUnreachable | store/serializers/product.py:20-21 | a negative stock is always reported by the field minimum, never by validate's own message |
| ProductSerializer.PartialSkipsAbsentFields | store/serializers/product.py:17-22 | in a partial update an absent field is never reported |
| ProductSerializer.CreateNeedsEveryField | store/serializers/product.py:8-15 | an accepted create has all six fields, the image included, a positive price and a stock the column holds |
| ProductSerializer.PatchValuesInBounds | store/serializers/product.py:17-22 | an accepted patch's supplied values are within bounds |
| ProductSerializer.NegativePriceAndStockReportsOnlyStock | store/serializers/product.py:17-22 | price −10.00 and stock −5 report only the stock minimum |
| ProductView.FirstNamed | store/views/product.py:50 | the first category with that name, or none iff no category has it |
| ProductView.CategoryFilter | store/views/product.py:48-52 | the category filter applies iff a non-empty name names an existing category |
| ProductView.FilterOf | store/views/product.py:53-54 | the price range applies iff both bounds are given |
| ProductView.Filter | store/views/product.py:46-54 | at most as many rows as the table; with FilterCount, FilterMembers and FilterAppend, exactly the admitted rows, each as often as in the table, in table order |
| ProductView.FilterCount | store/views/product.py:46-54 | each admitted row occurs as often as in the table, the others not at all |
| ProductView.FilterMembers | store/views/product.py:46-54 | a row is listed iff it is in the table and admitted |
| ProductView.FilterAppend | store/views/product.py:46-54 | the filter keeps table order: it distributes over concatenation |
| ProductView.PageSize | store/views/product.py:33-36 | 10 by default, the parameter when positive, at most 100 |
| ProductView.PageCount | store/views/product.py:57-58 | the number of pages is ceil(count / size): every row fits and the last page is non-empty; an empty list still has one page |
| ProductView.PageIndex | store/views/product.py:57-58 | no page parameter serves page 1, "last" the last page, a number n is served iff 1 ≤ n ≤ pages and then as page n; anything else is no page |
| ProductView.Page | store/views/product.py:57-58 | a page holds at most the page size |
| ProductView.PagesArePrefix | store/views/product.py:57-58 | the first k pages are the first k × size rows |
| ProductView.PagesCoverList | store/views/product.py:57-58 | the pages together are the whole selection |
| ProductView.SerializeRows | store/views/product.py:60 | one serialized product per row, in order |
| ProductView.ListProducts | store/views/product.py:39-73 | 200 with the requested page of the filtered rows iff that page exists, else 404 "Invalid page." |
| ProductView.ListedProductsMatch | store/views/product.py:48-54 | a listed product meets every filter in force |
| ProductView.UnknownCategoryIgnored | store/views/product.py:48-52 | an unknown category name and a single bound filter nothing |
| ProductView.FilterAdmitsAll | store/views/product.py:46 | with no filter in force every row is selected |
| ProductView.ProductDetail | store/views/product.py:79-88 | the product with 200, or 404 "No Product matches the given query." |
| ProductView.CreateProduct | store/views/product.py:14-31 | invalid input gives bare errors and no row; otherwise a row under the next id owned by the requester |
| ProductView.Apply | store/views/product.py:122-124 | a patch keeps the owner |
| ProductView.ApplyChangesOnlySupplied | store/views/product.py:122-124 | a patch changes exactly the supplied fields |
| ProductView.PatchProduct | store/views/product.py:106-136 | 404 missing, 403 not owner, 400 "Invalid data", else only supplied fields change; any non-200 changes nothing |
| ProductView.DeleteProduct | store/views/product.py:142-160 | removes the product and its order items iff it exists and the requester owns it; otherwise the same 404 and nothing changes |
| CategorySerializer.ValidateName | store/serializers/category.py:9-12 | refused iff some category already has the name; otherwise the name is returned unchanged |
| CategorySerializer.NameError | store/serializers/category.py:7-12 | required on create, string-field checks first, then validate_name |
| CategorySerializer.ValidateCategory | store/serializers/category.py:4-12 | accepted iff the name passes; errors only under "name"; data returned unchanged |
| CategorySerializer.AcceptedNameIsFree | store/serializers/category.py:9-12 | an accepted name is non-blank and held by no category |
| CategorySerializer.OwnNameRejected | store/serializers/category.py:10 | a category's own current name is refused on update |
| CategorySerializer.BlankNameRejected | store/views/category.py:61-75 | an empty name is refused as blank |
| CategoryView.Serialize | store/serializers/category.py:7 | a category renders as id, name and description |
| CategoryView.IndexOf | store/views/category.py:51 | the position of the category with that id, none iff absent |
| CategoryView.IndexOfUnique | store/views/category.py:51 | with distinct ids the lookup finds the one match |
| CategoryView.OwnedIndex | store/views/category.py:51 | found iff the category exists and the user owns it |
| CategoryView.ListCategories | store/views/category.py:12-23 | 200 with every category, in creation order |
| CategoryView.ListedNamesDistinct | store/views/category.py:12-23 | listed names and ids are distinct |
| CategoryView.NewCategory | store/views/category.py:31 | the new row's owner is user 1 and its description defaults to "" |
| CategoryView.CreateCategory | store/views/category.py:28-43 | 400 "Category creation failed" with the errors and nothing written; 500 with nothing written when user 1, the default owner, does not exist; else 201 with {} and the category appended under the next id |
| CategoryView.SecondCreateRejected | store/views/category.py:28-43 | creating the same name twice fails the second time |
| CategoryView.Apply | store/views/category.py:61-63 | an update changes only the supplied fields, never id or owner |
| CategoryView.UpdateCategory | store/views/category.py:48-75 | 404 when missing or not owned, 400 "Invalid data", else only that category changes, returned serialized |
| CategoryView.RenameShowsInListing | store/views/category.py:61-75 | a free name is accepted and listed in place |
| CategoryView.RemoveAt | store/views/category.py:94 | the other categories keep their order |
| CategoryView.RemoveAtKeepsOthers | store/views/category.py:94 | after removal the category is gone, the rest remain and stay unique |
| CategoryView.ProductsIn | store/models/product.py:12-15 | the products cascaded with the category |
| CategoryView.DeleteCategory | store/views/category.py:80-100 | 404 when missing or not owned, nothing changed; else exactly that category, its products and their order items go |
| UserSerializer.PasswordError | store/serializers/user.py:5-11 | a password field passes iff present with at least 8 characters and, for password, at most 128; each failure gets its own message |
| UserSerializer.EmailError | store/serializers/user.py:9 | email passes iff present, non-blank and held by no user |
| UserSerializer.SignupFieldErrors | store/serializers/user.py:5-13 | each field is reported iff its check fails |
| UserSerializer.ValidateSignup | store/serializers/user.py:15-18 | field errors pre-empt validate; accepted data is returned unchanged |
| UserSerializer.SignupRule | store/serializers/user.py:5-18 | accepted iff the email is new and both passwords are equal and between 8 and 128 characters |
| UserSerializer.MismatchKeyedOnConfirm | store/serializers/user.py:15-17 | a mismatch is reported under confirm_password alone |
| UserSerializer.ShortPasswordRejected | store/serializers/user.py:11 | a 7-character password fails on the password field |
| UserSerializer.LongPasswordRejected | store/migrations/0001_initial.py:21 | a password over 128 characters fails on password even when repeated; confirm_password has no maximum |
| UserSerializer.CreateUser | store/serializers/user.py:20-29 | the user is inserted under the next id without confirm_password; missing name, address and phone become '' |
| UserSerializer.SecondSignupRejected | store/serializers/user.py:20-29 | a second signup with the same email is refused |
| UserSerializer.ValidateEmail | store/serializers/user.py:36-39 | refused iff another user holds the email |
| UserSerializer.OwnEmailAccepted | store/serializers/user.py:37 | keeping one's own email passes |
| UserSerializer.OthersEmailRejected | store/serializers/user.py:37-38 | another user's email is refused |
| UserSerializer.AcceptedEmailKeepsUnique | store/serializers/user.py:36-39 | an accepted email keeps emails unique |
| Exceptions.FrameworkHandler | store/exceptions.py:7 | the framework answers every known exception, with a mapping, and none other |
| Exceptions.Handle | store/exceptions.py:5-33 | code equals status; data {} and success false; 401 and 403 fixed messages; else detail or "An error occurred"; no response gives 500 |
| Exceptions.HandleException | store/exceptions.py:5-33 | an exception gives 500 iff the framework does not know it |
| Exceptions.FixedMessagesIgnoreDetail | store/exceptions.py:18-21 | the detail of a 401 or 403 never reaches the client |
| Exceptions.OtherStatusesKeepDetail | store/exceptions.py:13 | other statuses pass their detail through |
| Exceptions.ProductNotFoundEnvelope | store/exceptions.py:10-15 | a missing product answers 404 "No Product matches the given query." |
| Authentication.Split | store/authentication.py:13 | the parts contain no space |
| Authentication.SplitJoin | store/authentication.py:13 | joining the parts gives the header back |
| Authentication.SplitAfterWord | store/authentication.py:13 | a word and a space split off as the first part |
| Authentication.TokenAlone | store/authentication.py:13 | a space-free string is one part |
| Authentication.LowerChar | store/authentication.py:14 | upper-case ASCII letters map to lower case, others unchanged |
| Authentication.Lower | store/authentication.py:14 | lower-casing keeps the length and maps each character |
| Authentication.Authenticate | store/authentication.py:7-24 | no header or an empty one is anonymous; not two parts gives "Invalid token."; a non-bearer prefix gives the header message; an unknown user "Invalid token."; a token the library refuses escapes, both directions; success returns the user and the unchanged token |
| Authentication.BearerHeaderAuthenticates | store/authentication.py:13-24 | "<bearer> <token>" for an existing user authenticates that user with that token |
| Authentication.PrefixCaseIgnored | store/authentication.py:14 | Bearer, bearer and BEARER are all accepted |
| Authentication.DoubleSpaceRejected | store/authentication.py:13 | two spaces give three parts and "Invalid token." |
| Authentication.Rejection | store/exceptions.py:18-31 | a failed authentication answers 401 with the fixed message; an escaped error 500 |
| Authentication.RefusedTokenAnswers500 | store/authentication.py:13-22 | an invalid or expired token under a bearer header is answered 500, not 401 |

## Left out

- Transactions and concurrency: no locking is modelled, and none exists in the code.
- Request parsing: an order line's `product_id` and `quantity` are taken as integers. Missing or non-integer values in the product dictionaries are not modelled.
- Error shape: error maps hold one message per field. The framework's lists of messages are not modelled.
- Input conversion: decimal parsing of product prices (precision, non-numeric input) is not modelled. Product prices arrive as whole cents.
- Common.CharFieldError: the framework trims surrounding whitespace before the blank check (so "   " is blank) and refuses strings containing a NUL character or lone surrogates. Values are taken as already trimmed and free of those characters.
- OrderSerializer.FieldErrors: `user_id`, `products`, `shipping_address` and `payment_method` are required, `user_id` must be an integer and `products` a list of dictionaries. The request is taken as already holding all four with those types; only the two string checks are modelled.
- OrderSerializer.CreateOrder: `OrderItem.price` and `Order.total_price` are numeric(10,2) columns. On a database that enforces the bound, a line price or total of 100,000,000.00 or more fails its write, and the earlier writes stay. Amounts are unbounded here.
- OrderView.Post: "never 500" holds only because amounts are unbounded. The numeric(10,2) overflow that CreateOrder leaves out would reach the view's `except Exception` as a 500.
- OrderSerializer.PriceMatches: a JSON number with more than two decimals, and an amount so large (from about 2^46 units, some 7·10^13) that the nearest double can lie a cent or more away from it, are not modelled. Such a number is read as the amount it is written as.
- OrderSerializer.Line: `quantity` is taken as an integer. A non-integer or missing quantity, which makes the comparison with stock raise, is not modelled.
- Common.CentsToString: a zero line total from a negative quantity is a Decimal "-0.00" in Python and prints with a '-'. Cents have no negative zero, so it prints "0.00" here.
- CategoryView.CreateCategory: on some databases a refused insert still consumes a sequence value. The next id is left unchanged here.
- Timestamps: `created_at` and the other timestamps are left out.
- Pagination: the `next`/`previous` links and URLs are left out.
- Images: image storage is a presence flag only.
- Passwords and tokens: password hashing, JWT signing and decoding, and login are library calls. Token decoding is a parameter of `Authentication.Authenticate`.
- The welcome email: store/views/user.py, with its SMTP side effect and login plumbing, is not part of this model.
- Order list, detail and status-update views: they are imported but not defined in the code, so they are not modelled. `OrderSerializer.ValidateShippingStatus` covers the status rule itself.
- Cart items: store/models/cart.py is not part of this model. There are no CartItem field checks (only the stock check), no cascade of cart items when a product goes, and no uniqueness beyond the (cart, product) key.
- CartView.AddToCart: it returns `Raised` for the merge refusal. That ValidationError carries a bare string, which lies outside the exception handler's domain, so its envelope is not modelled.
- CartView.AddToCart: the 400 covers only the stock message. Other per-field messages (a non-integer quantity) are not modelled.
- Category names: the framework's own unique validator on `Category.name` is not modelled. Its wording depends on the framework version, and it can report first on create. `validate_name` is modelled.
- UserSerializer.EmailError: the user model's file is not part of this model. Email format, the name, address and phone-number field checks, and the exact unique-column wording follow the framework defaults, not a checked model.
- ProductSerializer.PriceError: bounds only the digit count. Decimal places beyond two are not modelled.
- Authentication.Lower: lower-cases ASCII only. Python's `str.lower` is Unicode-aware, which matters only for non-ASCII prefixes.
- User deletion and its cascades are not modelled: no view deletes a user.

## Findings

| source | as written | input that shows it | evidently intended | confidence | as-written member | corrected member |
|---|---|---|---|---|---|---|
| store/serializers/order.py:34-36 | a line's `price` is compared with the Decimal line total as the raw JSON value, so a two-decimal price is a binary double that equals the total only for whole quarters | product priced 10.99, one line with quantity 1 and price 10.99: validate reports "Invalid price for Pen. The correct price should be 10.99." | a price written as the line total is accepted | high; not executed | OrderSerializer.TwoDecimalPriceRefused | OrderSerializer.CorrectPriceAgrees |

The rest of the model keeps the comparison as written (`OrderSerializer.PriceMatches`).
`OrderSerializer.PriceMatchesOnlyIfAgrees` shows the written check is only ever stricter than the intended one, booleans aside.
